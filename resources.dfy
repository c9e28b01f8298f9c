/**
 * The item managers of src/resources/resource_manager.h: a map from keys
 * to items (MapManager), the same with an active item (ActiveMapManager),
 * and the same with a list of items without a key
 * (MapManagerWithNameless).
 *
 * A key is stored under its internal key, by default the hash of the key
 * (GetInternalKey); that translation is a parameter of the manager, so two
 * keys with the same internal key name the same entry.
 */
module Resources {

  /** Load's effect on the map: try_emplace keeps an existing item. */
  function Loaded<Item>(items: map<nat, Item>, k: nat, item: Item): (r: map<nat, Item>)
    ensures k in r && r.Keys == items.Keys + {k}
    ensures k in items ==> r == items
    ensures k !in items ==> r[k] == item
    ensures forall j :: j in items ==> r[j] == items[j]
  {
    if k in items then items else items[k := item]
  }

  /** Unload's effect on the map: the entry is erased if present. */
  function Unloaded<Item>(items: map<nat, Item>, k: nat): (r: map<nat, Item>)
    ensures k !in r && r.Keys == items.Keys - {k}
    ensures forall j :: j in r ==> r[j] == items[j]
  {
    items - {k}
  }

  /** Loading twice under the same key is loading once. */
  lemma LoadIdempotent<Item>(items: map<nat, Item>, k: nat, first: Item, second: Item)
    ensures Loaded(Loaded(items, k, first), k, second) == Loaded(items, k, first)
    ensures Loaded(Loaded(items, k, first), k, second)[k] == (if k in items then items[k] else first)
  {
  }

  /** Unloading a key that is not loaded changes nothing. */
  lemma UnloadMissing<Item>(items: map<nat, Item>, k: nat)
    requires k !in items
    ensures Unloaded(items, k) == items
  {
  }

  /** Loading a new key and unloading it again gives the map back. */
  lemma UnloadUndoesLoad<Item>(items: map<nat, Item>, k: nat, item: Item)
    requires k !in items
    ensures Unloaded(Loaded(items, k, item), k) == items
  {
  }

  class MapManager<Item> {
    var items: map<nat, Item>
    /** GetInternalKey: the hash of the key, or the key itself. */
    const internalKey: string -> nat

    constructor (internalKey: string -> nat)
      ensures items == map[] && this.internalKey == internalKey
    {
      items := map[];
      this.internalKey := internalKey;
    }

    /** Load: store the item unless the key is loaded; the stored item is
     *  returned either way. */
    method Load(key: string, item: Item) returns (stored: Item)
      modifies this`items
      ensures items == Loaded(old(items), internalKey(key), item)
      ensures stored == items[internalKey(key)]
      ensures Has(key)
    {
      items := Loaded(items, internalKey(key), item);
      stored := items[internalKey(key)];
    }

    /** Unload: erase the key's entry; nothing for a missing key. */
    method Unload(key: string)
      modifies this`items
      ensures items == Unloaded(old(items), internalKey(key))
      ensures !Has(key)
    {
      items := Unloaded(items, internalKey(key));
    }

    function Has(key: string): (r: bool)
      reads this
      ensures r <==> internalKey(key) in items
    {
      internalKey(key) in items
    }

    /** Get: the key's item; the key must be loaded. */
    function Get(key: string): (r: Item)
      reads this
      requires Has(key)
      ensures internalKey(key) in items && r == items[internalKey(key)]
    {
      items[internalKey(key)]
    }

    /** Clear (and Reset, which also drops the capacity). */
    method Clear()
      modifies this`items
      ensures items == map[] && IsEmpty() && Size() == 0
    {
      items := map[];
    }

    function Size(): (r: nat)
      reads this
      ensures r == |items.Keys|
    {
      |items|
    }

    function IsEmpty(): (r: bool)
      reads this
      ensures r <==> items == map[]
    {
      |items| == 0
    }
  }

  /** Two keys with the same internal key share one entry: loading one
   *  makes the other loaded, with the same item. */
  lemma SharedInternalKey<Item>(items: map<nat, Item>, internalKey: string -> nat, a: string, b: string, item: Item)
    requires internalKey(a) == internalKey(b)
    ensures internalKey(b) in Loaded(items, internalKey(a), item)
    ensures Loaded(items, internalKey(a), item)[internalKey(b)] == Loaded(items, internalKey(a), item)[internalKey(a)]
  {
  }

  /** ActiveMapManager: a map manager with the internal key of an active
   *  item, 0 until one is set. */
  class ActiveMapManager<Item> {
    const manager: MapManager<Item>
    var activeKey: nat

    constructor (internalKey: string -> nat)
      ensures fresh(manager) && manager.items == map[] && manager.internalKey == internalKey && activeKey == 0
    {
      manager := new MapManager(internalKey);
      activeKey := 0;
    }

    /** The constructor with an initial active item: load it and make it
     *  active. */
    constructor WithActive(internalKey: string -> nat, key: string, item: Item)
      ensures fresh(manager) && manager.internalKey == internalKey
      ensures manager.items == map[internalKey(key) := item] && activeKey == internalKey(key)
      ensures HasActive() && GetActive() == item
    {
      manager := new MapManager(internalKey);
      new;
      var _ := manager.Load(key, item);
      activeKey := internalKey(key);
    }

    ghost function HasActive(): (r: bool)
      reads this, manager
      ensures r <==> activeKey in manager.items.Keys
    {
      activeKey in manager.items
    }

    /** GetActive: the active item, which must be loaded. */
    function GetActive(): (r: Item)
      reads this, manager
      requires HasActive()
      ensures r == manager.items[activeKey]
    {
      manager.items[activeKey]
    }

    /** SetActive: make a loaded key active. */
    method SetActive(key: string)
      requires manager.Has(key)
      modifies this`activeKey
      ensures activeKey == manager.internalKey(key)
      ensures HasActive() && GetActive() == manager.Get(key)
    {
      activeKey := manager.internalKey(key);
    }
  }

  /** MapManagerWithNameless: a map manager and a list of items without a
   *  key. */
  class MapManagerWithNameless<Item> {
    const manager: MapManager<Item>
    var nameless: seq<Item>

    constructor (internalKey: string -> nat)
      ensures fresh(manager) && manager.items == map[] && manager.internalKey == internalKey && nameless == []
    {
      manager := new MapManager(internalKey);
      nameless := [];
    }

    /** The nameless Load: append the item, whether or not an equal one is
     *  already listed. */
    method LoadNameless(item: Item) returns (stored: Item)
      modifies this`nameless
      ensures nameless == old(nameless) + [item] && stored == item
      ensures Size() == old(Size()) + 1
    {
      nameless := nameless + [item];
      stored := item;
    }

    /** Clear (and Reset): both the nameless items and the map. */
    method Clear()
      modifies this`nameless, manager`items
      ensures nameless == [] && manager.items == map[]
      ensures IsEmpty() && Size() == 0
    {
      nameless := [];
      manager.Clear();
    }

    /** Size: the keyed items and the nameless ones. */
    function Size(): (r: nat)
      reads this, manager
      ensures r == |manager.items| + |nameless|
      ensures r == 0 <==> IsEmpty()
    {
      manager.Size() + |nameless|
    }

    function IsEmpty(): (r: bool)
      reads this, manager
      ensures r <==> manager.items == map[] && nameless == []
    {
      manager.IsEmpty() && |nameless| == 0
    }
  }
}
