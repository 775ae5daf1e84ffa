// The persistent key-value store, abstracted: namespaces of integer-valued
// keys, and a flag saying whether opening a namespace succeeds on this
// device. Flash layout and commit are not modelled.

module Prefs {

  type Namespaces = map<string, map<string, int>>

  /** The integer stored under key in namespace ns, or dflt when there is none. */
  function Lookup(data: Namespaces, ns: string, key: string, dflt: int): int
  {
    if ns in data && key in data[ns] then data[ns][key] else dflt
  }

  /** data with key of namespace ns set to value, the namespace created if need be. */
  function Store(data: Namespaces, ns: string, key: string, value: int): Namespaces
  {
    var entries := if ns in data then data[ns] else map[];
    data[ns := entries[key := value]]
  }

  /** A stored value is read back, whatever the default; every other key reads as before. */
  lemma StoreThenLookup(data: Namespaces, ns: string, key: string, value: int, n: string, k: string, dflt: int)
    ensures Lookup(Store(data, ns, key, value), n, k, dflt)
         == if n == ns && k == key then value else Lookup(data, n, k, dflt)
  {
  }

  /** Creating an empty namespace before storing into it is what storing does anyway. */
  lemma StoreIntoCreated(data: Namespaces, ns: string, key: string, value: int)
    ensures Store(if ns in data then data else data[ns := map[]], ns, key, value) == Store(data, ns, key, value)
  {
  }

  /** A handle on the store: at most one namespace open at a time. */
  class Preferences {
    var data: Namespaces
    // Whether the flash can be opened at all.
    var opens: bool
    var started: bool
    var readOnly: bool
    var ns: string

    constructor (data: Namespaces, opens: bool)
      ensures this.data == data && this.opens == opens && !started
    {
      this.data := data;
      this.opens := opens;
      started := false;
      readOnly := true;
      ns := "";
    }

    /**
     * Opens namespace name. Fails when one is already open or the store
     * cannot be opened, and a read-only open also fails when the namespace
     * was never created; a read-write open creates it.
     */
    method Begin(name: string, readOnly: bool) returns (ok: bool)
      modifies this`started, this`readOnly, this`ns, this`data
      ensures ok == (!old(started) && opens && (readOnly ==> name in old(data)))
      ensures ok ==> started && ns == name && this.readOnly == readOnly
      ensures !ok ==> started == old(started) && ns == old(ns) && this.readOnly == old(this.readOnly)
      ensures data == if ok && name !in old(data) then old(data)[name := map[]] else old(data)
    {
      ok := !started && opens && (readOnly ==> name in data);
      if ok {
        started, ns, this.readOnly := true, name, readOnly;
        if name !in data {
          data := data[name := map[]];
        }
      }
    }

    /** Writes key in the open namespace; does nothing unless it is open for writing. */
    method PutInt(key: string, value: int)
      modifies this`data
      ensures data == if started && !readOnly then Store(old(data), ns, key, value) else old(data)
    {
      if started && !readOnly {
        data := Store(data, ns, key, value);
      }
    }

    /** Reads key from the open namespace, dflt when it is absent or nothing is open. */
    method GetInt(key: string, dflt: int) returns (v: int)
      ensures v == if started then Lookup(data, ns, key, dflt) else dflt
    {
      v := if started then Lookup(data, ns, key, dflt) else dflt;
    }

    method End()
      modifies this`started
      ensures !started
    {
      started := false;
    }
  }
}
