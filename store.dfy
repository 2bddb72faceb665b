/**
 * The WooCommerce order and the WordPress transient cache, as far as the
 * gateway and its privacy handler read and write them. Each method mirrors
 * one framework call the plugin makes.
 */
module Store {
  import opened Wrappers

  /** A stored transient: its value and its lifetime in seconds. */
  datatype Transient = Transient(value: int, expiration: nat)

  /** `get_meta($key, true)`: the stored value, '' when there is none. */
  function MetaValue(meta: map<string, string>, key: string): string {
    if key in meta then meta[key] else ""
  }

  class Order {
    const id: nat
    const orderKey: string
    /** `intval($order->get_total() * 100)`: the total in minor currency units. */
    const totalMinor: int
    /** `count($order->get_items())`. */
    const itemCount: nat
    var status: string
    var meta: map<string, string>
    var notes: seq<string>
    /** The transaction ids handed to `payment_complete`, in call order. */
    var completions: seq<string>

    constructor (id: nat, orderKey: string, totalMinor: int, itemCount: nat, status: string, meta: map<string, string>)
      ensures this.id == id && this.orderKey == orderKey
      ensures this.totalMinor == totalMinor && this.itemCount == itemCount
      ensures this.status == status && this.meta == meta
      ensures notes == [] && completions == []
    {
      this.id, this.orderKey, this.totalMinor, this.itemCount := id, orderKey, totalMinor, itemCount;
      this.status, this.meta := status, meta;
      notes, completions := [], [];
    }

    /** `get_meta($key, true)` on this order. */
    function GetMeta(key: string): string
      reads this
    {
      MetaValue(meta, key)
    }

    method UpdateMetaData(key: string, value: string)
      modifies this`meta
      ensures meta == old(meta)[key := value]
    {
      meta := meta[key := value];
    }

    /** `delete_meta_data` followed by `save_meta_data`. */
    method DeleteMetaData(key: string)
      modifies this`meta
      ensures meta == old(meta) - {key}
    {
      meta := meta - {key};
    }

    method AddOrderNote(note: string)
      modifies this`notes
      ensures notes == old(notes) + [note]
    {
      notes := notes + [note];
    }

    /** `update_status($status, $note)`: the new status, with the note recorded. */
    method UpdateStatus(newStatus: string, note: string)
      modifies this`status, this`notes
      ensures status == newStatus && notes == old(notes) + [note]
    {
      status := newStatus;
      notes := notes + [note];
    }

    /** `payment_complete($transaction_id)`: recorded; what WooCommerce then does is its own. */
    method PaymentComplete(transactionId: string)
      modifies this`completions
      ensures completions == old(completions) + [transactionId]
    {
      completions := completions + [transactionId];
    }
  }

  /** The transient cache, keyed by transient name. */
  class Transients {
    var entries: map<string, Transient>

    constructor ()
      ensures entries == map[]
    {
      entries := map[];
    }

    /** `get_transient($key)`: the value, or None (PHP false) when absent. */
    function Get(key: string): Option<int>
      reads this
    {
      if key in entries then Some(entries[key].value) else None
    }

    method Set(key: string, value: int, expiration: nat)
      modifies this
      ensures entries == old(entries)[key := Transient(value, expiration)]
    {
      entries := entries[key := Transient(value, expiration)];
    }

    method Delete(key: string)
      modifies this
      ensures entries == old(entries) - {key}
    {
      entries := entries - {key};
    }
  }
}
