/** The move as it ships: loops over two live stores that write, read back, remove and restore. */
module SessionMover {
  import opened Sequences
  import opened Options
  import opened SessionMove

  class BrowserStore {
    var items: map<string, string>
    var keys: seq<string>
    var script: seq<Fault>

    ghost function View(): Store
      reads this
    {
      Store(items, keys, script)
    }

    constructor (items: map<string, string>, keys: seq<string>, script: seq<Fault>)
      ensures View() == Store(items, keys, script)
    {
      this.items, this.keys, this.script := items, keys, script;
    }

    method NextFault() returns (fault: Fault)
      modifies this
      ensures fault == At(old(script), 0) && View() == Spent(old(View()))
    {
      if script == [] {
        return Works;
      }
      fault := script[0];
      script := script[1..];
    }

    method Length() returns (r: Result<nat>)
      modifies this
      ensures SessionMove.Length(old(View())) == Call(View(), r)
    {
      var fault := NextFault();
      r := if fault == Throws then Thrown else Ok(|keys|);
    }

    method Key(index: nat) returns (r: Result<Option<string>>)
      modifies this
      ensures SessionMove.Key(old(View()), index) == Call(View(), r)
    {
      var fault := NextFault();
      r := if fault == Throws then Thrown else Ok(if index < |keys| then Some(keys[index]) else None);
    }

    method GetItem(key: string) returns (r: Result<Option<string>>)
      modifies this
      ensures SessionMove.GetItem(old(View()), key) == Call(View(), r)
    {
      var fault := NextFault();
      r := if fault == Throws then Thrown else Ok(if key in items then Some(items[key]) else None);
    }

    method SetItem(key: string, value: string) returns (r: Result<()>)
      modifies this
      ensures SessionMove.SetItem(old(View()), key, value) == Call(View(), r)
    {
      var fault := NextFault();
      if fault == Throws {
        return Thrown;
      }
      keys := if key in items then keys else keys + [key];
      items := items[key := if fault.Keeps? then fault.value else value];
      return Ok(());
    }

    method RemoveItem(key: string) returns (r: Result<()>)
      modifies this
      ensures SessionMove.RemoveItem(old(View()), key) == Call(View(), r)
    {
      var fault := NextFault();
      if fault == Throws {
        return Thrown;
      }
      items := items - {key};
      keys := Exclude(keys, {key});
      return Ok(());
    }
  }

  method SessionKeysIn(store: BrowserStore, prefix: string) returns (found: seq<string>)
    modifies store
    ensures Enumerate(old(store.View()), prefix, 0, []) == Found(store.View(), found)
  {
    found := [];
    var index := 0;
    while true
      invariant Enumerate(old(store.View()), prefix, 0, []) == Enumerate(store.View(), prefix, index, found)
      invariant store.keys == old(store.keys)
      decreases |store.keys| - index
    {
      var length := store.Length();
      if length.Thrown? {
        return [];
      }
      if index >= length.value {
        return;
      }
      var key := store.Key(index);
      if key.Thrown? {
        return [];
      }
      if key.value.Some? && prefix <= key.value.value {
        found := found + [key.value.value];
      }
      index := index + 1;
    }
  }

  /** Each name is put back in turn, a call that throws passed over. */
  method PutAllBack(store: BrowserStore, names: seq<(string, Option<string>)>)
    modifies store
    ensures store.View() == Restore(old(store.View()), names)
  {
    for i := 0 to |names|
      invariant Restore(old(store.View()), names) == Restore(store.View(), names[i..])
    {
      assert names[i..][1..] == names[i + 1..];
      var (key, value) := names[i];
      if value.None? {
        var _ := store.RemoveItem(key);
      } else {
        var _ := store.SetItem(key, value.value);
      }
    }
  }

  method Read(from: BrowserStore, to: BrowserStore, keys: seq<string>)
    returns (carried: seq<(string, string)>, displaced: seq<(string, Option<string>)>, readable: bool)
    requires from != to
    modifies from, to
    ensures ReadAll(Reading(old(from.View()), old(to.View()), [], []), keys)
         == (Reading(from.View(), to.View(), carried, displaced), readable)
  {
    carried, displaced := [], [];
    for i := 0 to |keys|
      invariant ReadAll(Reading(old(from.View()), old(to.View()), [], []), keys)
             == ReadAll(Reading(from.View(), to.View(), carried, displaced), keys[i..])
    {
      assert keys[i..][1..] == keys[i + 1..];
      var value := from.GetItem(keys[i]);
      if value.Thrown? {
        return carried, displaced, false;
      }
      if value.value.Some? {
        carried := carried + [(keys[i], value.value.value)];
        var held := to.GetItem(keys[i]);
        if held.Thrown? {
          return carried, displaced, false;
        }
        displaced := displaced + [(keys[i], held.value)];
      }
    }
    return carried, displaced, true;
  }

  method WriteAcross(to: BrowserStore, carried: seq<(string, string)>) returns (landed: bool)
    modifies to
    ensures WriteAll(old(to.View()), carried) == (to.View(), landed)
  {
    for i := 0 to |carried|
      invariant WriteAll(old(to.View()), carried) == WriteAll(to.View(), carried[i..])
    {
      assert carried[i..][1..] == carried[i + 1..];
      var (key, value) := carried[i];
      var written := to.SetItem(key, value);
      if written.Thrown? {
        return false;
      }
      var back := to.GetItem(key);
      if back != Ok(Some(value)) {
        return false;
      }
    }
    return true;
  }

  method RemoveFrom(from: BrowserStore, carried: seq<(string, string)>) returns (gone: bool)
    modifies from
    ensures RemoveAll(old(from.View()), carried) == (from.View(), gone)
  {
    for i := 0 to |carried|
      invariant RemoveAll(old(from.View()), carried) == RemoveAll(from.View(), carried[i..])
    {
      assert carried[i..][1..] == carried[i + 1..];
      var removed := from.RemoveItem(carried[i].0);
      if removed.Thrown? {
        return false;
      }
    }
    return true;
  }

  method GiveBack(from: BrowserStore, carried: seq<(string, string)>)
    modifies from
    ensures from.View() == Restore(old(from.View()), Given(carried))
  {
    for i := 0 to |carried|
      invariant Restore(old(from.View()), Given(carried)) == Restore(from.View(), Given(carried)[i..])
    {
      assert Given(carried)[i..][1..] == Given(carried)[i + 1..];
      var (key, value) := carried[i];
      var _ := from.SetItem(key, value);
    }
  }

  /** Nothing to move, or nowhere to move it, is done at once; the rest is the move. */
  method MoveAuthSession(from: BrowserStore?, to: BrowserStore?, prefix: Option<string>)
    returns (outcome: Outcome)
    modifies if from == null then {} else {from}, if to == null then {} else {to}
    ensures from == null || to == null || from == to || prefix.None? ==>
              && outcome == Done(0)
              && (from != null ==> from.View() == old(from.View()))
              && (to != null ==> to.View() == old(to.View()))
    ensures from != null && to != null && from != to && prefix.Some? ==>
              Move(old(from.View()), old(to.View()), prefix.value) == Moved(from.View(), to.View(), outcome)
  {
    if from == null || to == null || from == to || prefix.None? || prefix.value == "" {
      return Done(0);
    }
    var keys := SessionKeysIn(from, prefix.value);
    if keys == [] {
      return Done(0);
    }
    var carried, displaced, readable := Read(from, to, keys);
    var landed := false;
    if readable {
      landed := WriteAcross(to, carried);
    }
    if !landed {
      PutAllBack(to, displaced);
      return Refused;
    }
    var gone := RemoveFrom(from, carried);
    if !gone {
      GiveBack(from, carried);
      PutAllBack(to, displaced);
      return Refused;
    }
    return Done(|carried|);
  }
}
