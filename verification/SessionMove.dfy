/**
 * Carrying a session from one browser store to the other, when any call of either
 * store may throw and a write may keep something else than it was given.
 */
module SessionMove {
  import opened Sequences
  import opened Options

  /** What one call of a store does. */
  datatype Fault = Works | Throws | Keeps(value: string)

  /** A store's contents, the order its keys enumerate in, and what its next calls will do. */
  datatype Store = Store(items: map<string, string>, keys: seq<string>, script: seq<Fault>)

  datatype Result<T> = Ok(value: T) | Thrown

  datatype Call<T> = Call(store: Store, result: Result<T>)

  datatype Outcome = Done(moved: nat) | Refused

  ghost predicate Valid(s: Store) {
    NoDup(s.keys) && forall k :: k in s.keys <==> k in s.items
  }

  /** What call number `n` does; a script that has run out means every call works. */
  function At(script: seq<Fault>, n: nat): Fault {
    if n < |script| then script[n] else Works
  }

  /** What is still to come after `n` calls. */
  function Rest(script: seq<Fault>, n: nat): seq<Fault> {
    if n <= |script| then script[n..] else []
  }

  function Spent(s: Store): Store {
    s.(script := Rest(s.script, 1))
  }

  function HeldIn(items: map<string, string>, key: string): Option<string> {
    if key in items then Some(items[key]) else None
  }

  function Held(s: Store, key: string): Option<string> {
    HeldIn(s.items, key)
  }

  function Length(s: Store): Call<nat> {
    Call(Spent(s), if At(s.script, 0) == Throws then Thrown else Ok(|s.keys|))
  }

  function Key(s: Store, index: nat): Call<Option<string>> {
    Call(Spent(s),
         if At(s.script, 0) == Throws then Thrown
         else Ok(if index < |s.keys| then Some(s.keys[index]) else None))
  }

  function GetItem(s: Store, key: string): Call<Option<string>> {
    Call(Spent(s), if At(s.script, 0) == Throws then Thrown else Ok(Held(s, key)))
  }

  function SetItem(s: Store, key: string, value: string): Call<()> {
    var fault := At(s.script, 0);
    if fault == Throws then Call(Spent(s), Thrown)
    else
      var keys := if key in s.items then s.keys else s.keys + [key];
      Call(Spent(s).(items := s.items[key := if fault.Keeps? then fault.value else value], keys := keys), Ok(()))
  }

  function RemoveItem(s: Store, key: string): Call<()> {
    if At(s.script, 0) == Throws then Call(Spent(s), Thrown)
    else Call(Spent(s).(items := s.items - {key}, keys := Exclude(s.keys, {key})), Ok(()))
  }

  // ------------------------------------------------------------------ the phases

  datatype Found = Found(store: Store, keys: seq<string>)

  /** The keys under the prefix, or none at all when the store throws. */
  function Enumerate(s: Store, prefix: string, index: nat, found: seq<string>): Found
    decreases |s.keys| - index
  {
    var length := Length(s);
    if length.result.Thrown? then Found(length.store, [])
    else if index >= length.result.value then Found(length.store, found)
    else
      var key := Key(length.store, index);
      if key.result.Thrown? then Found(key.store, [])
      else
        var name := key.result.value;
        var more := if name.Some? && prefix <= name.value then found + [name.value] else found;
        Enumerate(key.store, prefix, index + 1, more)
  }

  function UnderPrefix(keys: seq<string>, prefix: string): seq<string> {
    if keys == [] then []
    else (if prefix <= keys[0] then [keys[0]] else []) + UnderPrefix(keys[1..], prefix)
  }

  /** The move so far: what is carried, and what the target held under those names. */
  datatype Reading = Reading(from: Store, to: Store, carried: seq<(string, string)>,
                             displaced: seq<(string, Option<string>)>)

  function ReadAll(r: Reading, keys: seq<string>): (Reading, bool)
    decreases |keys|
  {
    if keys == [] then (r, true)
    else
      var value := GetItem(r.from, keys[0]);
      if value.result.Thrown? then (r.(from := value.store), false)
      else if value.result.value.None? then ReadAll(r.(from := value.store), keys[1..])
      else
        var held := GetItem(r.to, keys[0]);
        var carried := r.carried + [(keys[0], value.result.value.value)];
        if held.result.Thrown? then (Reading(value.store, held.store, carried, r.displaced), false)
        else
          var displaced := r.displaced + [(keys[0], held.result.value)];
          ReadAll(Reading(value.store, held.store, carried, displaced), keys[1..])
  }

  function WriteAll(to: Store, carried: seq<(string, string)>): (Store, bool)
    decreases |carried|
  {
    if carried == [] then (to, true)
    else
      var (key, value) := carried[0];
      var written := SetItem(to, key, value);
      if written.result.Thrown? then (written.store, false)
      else
        var back := GetItem(written.store, key);
        if back.result == Ok(Some(value)) then WriteAll(back.store, carried[1..]) else (back.store, false)
  }

  function RemoveAll(from: Store, carried: seq<(string, string)>): (Store, bool)
    decreases |carried|
  {
    if carried == [] then (from, true)
    else
      var gone := RemoveItem(from, carried[0].0);
      if gone.result.Thrown? then (gone.store, false) else RemoveAll(gone.store, carried[1..])
  }

  /** One name put back to what was held under it, a failure swallowed. */
  function PutBack(s: Store, key: string, was: Option<string>): Store {
    if was.None? then RemoveItem(s, key).store else SetItem(s, key, was.value).store
  }

  function Restore(s: Store, names: seq<(string, Option<string>)>): Store
    decreases |names|
  {
    if names == [] then s else Restore(PutBack(s, names[0].0, names[0].1), names[1..])
  }

  /** What is carried, as what the source held. */
  function Given(carried: seq<(string, string)>): (r: seq<(string, Option<string>)>)
    ensures |r| == |carried| && forall k :: 0 <= k < |r| ==> r[k] == (carried[k].0, Some(carried[k].1))
  {
    seq(|carried|, k requires 0 <= k < |carried| => (carried[k].0, Some(carried[k].1)))
  }

  /** How far a move came: whether everything was read back from the target, and then left the source. */
  datatype Attempt = Attempt(from: Store, to: Store, carried: seq<(string, string)>,
                             displaced: seq<(string, Option<string>)>, landed: bool, gone: bool)

  function Try(from: Store, to: Store, keys: seq<string>): Attempt {
    var (r, readable) := ReadAll(Reading(from, to, [], []), keys);
    var (written, landed) := if readable then WriteAll(r.to, r.carried) else (r.to, false);
    var (left, gone) := if landed then RemoveAll(r.from, r.carried) else (r.from, false);
    Attempt(left, written, r.carried, r.displaced, landed, gone)
  }

  datatype Moved = Moved(from: Store, to: Store, outcome: Outcome)

  /** An attempt that did not get through is undone: the source when it had begun to give keys up, then the target. */
  function MoveKeys(from: Store, to: Store, keys: seq<string>): Moved {
    var a := Try(from, to, keys);
    if a.gone then Moved(a.from, a.to, Done(|a.carried|))
    else Moved(if a.landed then Restore(a.from, Given(a.carried)) else a.from, Restore(a.to, a.displaced), Refused)
  }

  function Move(from: Store, to: Store, prefix: string): Moved {
    if prefix == "" then Moved(from, to, Done(0))
    else
      var found := Enumerate(from, prefix, 0, []);
      if found.keys == [] then Moved(found.store, to, Done(0))
      else MoveKeys(found.store, to, found.keys)
  }

  // ------------------------------------------------------------- names and entries

  function Names<T>(pairs: seq<(string, T)>): (r: seq<string>)
    ensures |r| == |pairs| && forall k :: 0 <= k < |r| ==> r[k] == pairs[k].0
  {
    seq(|pairs|, k requires 0 <= k < |pairs| => pairs[k].0)
  }

  function Entries(keys: seq<string>, items: map<string, string>): (r: seq<(string, string)>)
    requires forall k :: k in keys ==> k in items
    ensures |r| == |keys| && forall k :: 0 <= k < |r| ==> r[k] == (keys[k], items[keys[k]])
  {
    seq(|keys|, k requires 0 <= k < |keys| => (keys[k], items[keys[k]]))
  }

  function Remembered(keys: seq<string>, items: map<string, string>): (r: seq<(string, Option<string>)>)
    ensures |r| == |keys| && forall k :: 0 <= k < |r| ==> r[k] == (keys[k], HeldIn(items, keys[k]))
  {
    seq(|keys|, k requires 0 <= k < |keys| => (keys[k], HeldIn(items, keys[k])))
  }

  lemma {:induction false} UnderPrefixAre(keys: seq<string>, prefix: string)
    ensures forall k :: k in UnderPrefix(keys, prefix) <==> k in keys && prefix <= k
    ensures NoDup(keys) ==> NoDup(UnderPrefix(keys, prefix))
  {
    if keys != [] {
      UnderPrefixAre(keys[1..], prefix);
      if NoDup(keys) {
        NoDupTail(keys);
      }
    }
  }

  /** Outside some keys two stores hold the same. */
  ghost predicate SameBut(a: map<string, string>, b: map<string, string>, keys: seq<string>) {
    forall k :: k !in keys ==> HeldIn(a, k) == HeldIn(b, k)
  }

  /** A store put back under every name it was changed under holds what it held. */
  lemma SameItems(a: map<string, string>, b: map<string, string>, keys: seq<string>)
    requires SameBut(a, b, keys) && forall k :: k in keys ==> HeldIn(a, k) == HeldIn(b, k)
    ensures a == b
  {
    assert forall k :: HeldIn(a, k) == HeldIn(b, k);
    assert forall k :: (k in a <==> HeldIn(a, k).Some?) && (k in b <==> HeldIn(b, k).Some?);
  }

  lemma Later(script: seq<Fault>, a: nat, b: nat)
    ensures Rest(Rest(script, a), b) == Rest(script, a + b)
    ensures At(Rest(script, a), b) == At(script, a + b)
  {
  }

  /** None of the next `n` calls throws. */
  predicate Clear(script: seq<Fault>, n: nat) {
    forall k :: 0 <= k < n ==> At(script, k) != Throws
  }

  lemma ClearNext(script: seq<Fault>, n: nat)
    requires n > 0
    ensures Clear(script, n) <==> At(script, 0) != Throws && Clear(Rest(script, 1), n - 1)
  {
    forall k: nat ensures At(Rest(script, 1), k) == At(script, k + 1) {
      Later(script, 1, k);
    }
    if At(script, 0) != Throws && Clear(Rest(script, 1), n - 1) {
      forall k | 0 <= k < n ensures At(script, k) != Throws {
        if k > 0 {
          assert At(Rest(script, 1), k - 1) == At(script, k);
        }
      }
    }
  }

  // -------------------------------------------------------- what each phase comes to

  /** Walking a store takes two calls a key and one more; one that throws finds nothing. */
  lemma {:induction false} EnumerateFinds(s: Store, prefix: string, index: nat, found: seq<string>)
    requires index <= |s.keys|
    ensures Walks(s, prefix, index, found, 2 * (|s.keys| - index) + 1)
    decreases |s.keys| - index
  {
    var calls := 2 * (|s.keys| - index) + 1;
    if index == |s.keys| {
      ClearNext(s.script, 1);
    } else {
      ClearTwice(s.script, calls);
      if At(s.script, 0) != Throws && At(s.script, 1) != Throws {
        var next, more := EnumerateNext(s, prefix, index, found);
        EnumerateFinds(next, prefix, index + 1, more);
        Later(s.script, 2, calls - 2);
      } else {
        EnumerateStops(s, prefix, index, found);
      }
    }
  }

  /** Walking on from `index` changes nothing, and finds the rest when none of its calls throws. */
  ghost predicate Walks(s: Store, prefix: string, index: nat, found: seq<string>, calls: nat)
    requires index <= |s.keys|
  {
    var r := Enumerate(s, prefix, index, found);
    && r.store.items == s.items && r.store.keys == s.keys
    && (if Clear(s.script, calls)
        then r.keys == found + UnderPrefix(s.keys[index..], prefix) && r.store.script == Rest(s.script, calls)
        else r.keys == [])
  }

  lemma EnumerateStops(s: Store, prefix: string, index: nat, found: seq<string>)
    requires index < |s.keys| && (At(s.script, 0) == Throws || At(s.script, 1) == Throws)
    ensures var r := Enumerate(s, prefix, index, found);
            r.store.items == s.items && r.store.keys == s.keys && r.keys == []
  {
    Later(s.script, 1, 0);
  }

  lemma EnumerateNext(s: Store, prefix: string, index: nat, found: seq<string>) returns (next: Store, more: seq<string>)
    requires index < |s.keys| && At(s.script, 0) != Throws && At(s.script, 1) != Throws
    ensures next == s.(script := Rest(s.script, 2))
    ensures more + UnderPrefix(s.keys[index + 1..], prefix) == found + UnderPrefix(s.keys[index..], prefix)
    ensures Enumerate(s, prefix, index, found) == Enumerate(next, prefix, index + 1, more)
  {
    Later(s.script, 1, 0);
    Later(s.script, 1, 1);
    next := s.(script := Rest(s.script, 2));
    more := if prefix <= s.keys[index] then found + [s.keys[index]] else found;
    assert s.keys[index..][1..] == s.keys[index + 1..];
  }

  lemma ClearTwice(script: seq<Fault>, n: nat)
    requires n > 1
    ensures Clear(script, n) <==> At(script, 0) != Throws && At(script, 1) != Throws && Clear(Rest(script, 2), n - 2)
  {
    ClearNext(script, n);
    ClearNext(Rest(script, 1), n - 1);
    Later(script, 1, 0);
    Later(script, 1, 1);
  }

  lemma ReadNext(r: Reading, keys: seq<string>) returns (next: Reading)
    requires keys != [] && keys[0] in r.from.items
    requires At(r.from.script, 0) != Throws && At(r.to.script, 0) != Throws
    ensures next == Reading(Spent(r.from), Spent(r.to), r.carried + [(keys[0], r.from.items[keys[0]])],
                            r.displaced + [(keys[0], Held(r.to, keys[0]))])
    ensures ReadAll(r, keys) == ReadAll(next, keys[1..])
  {
    next := Reading(Spent(r.from), Spent(r.to), r.carried + [(keys[0], r.from.items[keys[0]])],
                    r.displaced + [(keys[0], Held(r.to, keys[0]))]);
  }

  /** Reading changes nothing, and remembers what is displaced as far as it came. */
  lemma {:induction false} ReadAllRemembers(r: Reading, keys: seq<string>) returns (n: nat)
    requires forall k :: k in keys ==> k in r.from.items
    ensures n <= |keys|
    ensures var (end, ok) := ReadAll(r, keys);
            && end.from.items == r.from.items && end.to.items == r.to.items
            && end.displaced == r.displaced + Remembered(keys[..n], r.to.items)
    decreases |keys|
  {
    n := 0;
    if keys != [] && At(r.from.script, 0) != Throws && At(r.to.script, 0) != Throws {
      var next := ReadNext(r, keys);
      var m := ReadAllRemembers(next, keys[1..]);
      n := m + 1;
      assert Remembered(keys[..n], r.to.items)
          == [(keys[0], Held(r.to, keys[0]))] + Remembered(keys[1..][..m], r.to.items);
    }
  }

  /** It ends when no call of either store throws, with every key carried. */
  lemma {:induction false} ReadAllEnds(r: Reading, keys: seq<string>)
    requires forall k :: k in keys ==> k in r.from.items
    ensures ReadAll(r, keys).1 <==> Clear(r.from.script, |keys|) && Clear(r.to.script, |keys|)
    ensures ReadAll(r, keys).1 ==> ReadAll(r, keys).0 == ReadEnd(r, keys)
    decreases |keys|
  {
    if keys == [] {
      assert ReadEnd(r, keys) == r;
    } else {
      ClearNext(r.from.script, |keys|);
      ClearNext(r.to.script, |keys|);
      if At(r.from.script, 0) != Throws && At(r.to.script, 0) != Throws {
        var next := ReadNext(r, keys);
        ReadAllEnds(next, keys[1..]);
        ReadEndNext(r, keys, next);
      }
    }
  }

  /**
   * Whatever keys are asked for, with no call throwing those the source holds are
   * carried, in order and with their values; one it no longer holds is passed over.
   */
  lemma {:induction false} AbsentKeysArePassedOver(r: Reading, keys: seq<string>)
    requires Clear(r.from.script, |keys|) && Clear(r.to.script, |keys|)
    ensures ReadAll(r, keys).1
    ensures ReadAll(r, keys).0.carried
         == r.carried + Entries(Restrict(keys, r.from.items.Keys), r.from.items)
    decreases |keys|
  {
    if keys != [] {
      ClearNext(r.from.script, |keys|);
      ClearNext(r.to.script, |keys|);
      if keys[0] in r.from.items {
        var next := ReadNext(r, keys);
        AbsentKeysArePassedOver(next, keys[1..]);
        EntriesNext(r.carried, Restrict(keys, r.from.items.Keys), r.from.items);
      } else {
        ClearLess(r.to.script, |keys|);
        AbsentKeysArePassedOver(r.(from := Spent(r.from)), keys[1..]);
      }
    }
  }

  lemma ClearLess(script: seq<Fault>, n: nat)
    requires n > 0 && Clear(script, n)
    ensures Clear(script, n - 1)
  {
  }

  /** Everything read: each key's value, and what the target holds under it. */
  ghost function ReadEnd(r: Reading, keys: seq<string>): Reading
    requires forall k :: k in keys ==> k in r.from.items
  {
    Reading(r.from.(script := Rest(r.from.script, |keys|)), r.to.(script := Rest(r.to.script, |keys|)),
            r.carried + Entries(keys, r.from.items), r.displaced + Remembered(keys, r.to.items))
  }

  lemma ReadEndNext(r: Reading, keys: seq<string>, next: Reading)
    requires keys != [] && forall k :: k in keys ==> k in r.from.items
    requires next == Reading(Spent(r.from), Spent(r.to), r.carried + [(keys[0], r.from.items[keys[0]])],
                             r.displaced + [(keys[0], Held(r.to, keys[0]))])
    ensures ReadEnd(next, keys[1..]) == ReadEnd(r, keys)
  {
    Later(r.from.script, 1, |keys| - 1);
    Later(r.to.script, 1, |keys| - 1);
    EntriesNext(r.carried, keys, r.from.items);
    RememberedNext(r.displaced, keys, r.to.items);
  }

  lemma EntriesNext(carried: seq<(string, string)>, keys: seq<string>, items: map<string, string>)
    requires keys != [] && forall k :: k in keys ==> k in items
    ensures carried + [(keys[0], items[keys[0]])] + Entries(keys[1..], items) == carried + Entries(keys, items)
  {
  }

  lemma RememberedNext(displaced: seq<(string, Option<string>)>, keys: seq<string>, items: map<string, string>)
    requires keys != []
    ensures displaced + [(keys[0], HeldIn(items, keys[0]))] + Remembered(keys[1..], items)
         == displaced + Remembered(keys, items)
  {
  }

  /** Every write keeps what it is given and every read back answers. */
  ghost predicate Takes(script: seq<Fault>, carried: seq<(string, string)>) {
    forall k :: 0 <= k < |carried| ==> TakesOne(At(script, 2 * k), At(script, 2 * k + 1), carried[k].1)
  }

  predicate TakesOne(write: Fault, read: Fault, value: string) {
    (write == Works || write == Keeps(value)) && read != Throws
  }

  lemma TakesNext(script: seq<Fault>, carried: seq<(string, string)>)
    requires carried != []
    ensures Takes(script, carried)
            <==> TakesOne(At(script, 0), At(script, 1), carried[0].1) && Takes(Rest(script, 2), carried[1..])
  {
    forall k: nat ensures At(Rest(script, 2), k) == At(script, k + 2) {
      Later(script, 2, k);
    }
    if TakesOne(At(script, 0), At(script, 1), carried[0].1) && Takes(Rest(script, 2), carried[1..]) {
      forall k | 0 <= k < |carried| ensures TakesOne(At(script, 2 * k), At(script, 2 * k + 1), carried[k].1) {
        if k > 0 {
          var j := 2 * (k - 1);
          assert TakesOne(At(Rest(script, 2), j), At(Rest(script, 2), j + 1), carried[1..][k - 1].1);
        }
      }
    }
    if Takes(script, carried) {
      forall k | 0 <= k < |carried| - 1
        ensures TakesOne(At(Rest(script, 2), 2 * k), At(Rest(script, 2), 2 * k + 1), carried[1..][k].1)
      {
        assert TakesOne(At(script, 2 * (k + 1)), At(script, 2 * (k + 1) + 1), carried[k + 1].1);
      }
    }
  }

  /** Writing touches nothing but what is carried, and ends when everything reads back as it was. */
  lemma {:induction false} WriteAllTouches(to: Store, carried: seq<(string, string)>)
    requires NoDup(Names(carried))
    ensures SameBut(WriteAll(to, carried).0.items, to.items, Names(carried))
    decreases |carried|
  {
    if carried != [] {
      NamesTail(carried);
      var next, ok := WriteNext(to, carried);
      if ok {
        WriteAllTouches(next, carried[1..]);
        SameButTogether(WriteAll(next, carried[1..]).0.items, next.items, to.items, carried);
      }
    }
  }

  lemma {:induction false} WriteAllWrites(to: Store, carried: seq<(string, string)>)
    requires NoDup(Names(carried))
    ensures var (end, ok) := WriteAll(to, carried);
            && (ok <==> Takes(to.script, carried))
            && (ok ==> end.script == Rest(to.script, 2 * |carried|) && HoldsAll(end, carried))
    decreases |carried|
  {
    if carried != [] {
      TakesNext(to.script, carried);
      NamesTail(carried);
      var next, ok := WriteNext(to, carried);
      if ok {
        WriteAllWrites(next, carried[1..]);
        WriteAllTouches(next, carried[1..]);
        Later(to.script, 2, 2 * |carried| - 2);
        if WriteAll(next, carried[1..]).1 {
          HoldsOneMore(WriteAll(next, carried[1..]).0, carried);
        }
      }
    }
  }

  lemma SameButTogether<T>(end: map<string, string>, next: map<string, string>, start: map<string, string>,
                           pairs: seq<(string, T)>)
    requires pairs != [] && NoDup(Names(pairs))
    requires SameBut(next, start, [pairs[0].0]) && SameBut(end, next, Names(pairs[1..]))
    ensures SameBut(end, start, Names(pairs))
  {
    NamesTail(pairs);
  }

  ghost predicate HoldsAll(s: Store, carried: seq<(string, string)>) {
    forall k :: 0 <= k < |carried| ==> Held(s, carried[k].0) == Some(carried[k].1)
  }

  lemma HoldsOneMore(s: Store, carried: seq<(string, string)>)
    requires carried != [] && Held(s, carried[0].0) == Some(carried[0].1) && HoldsAll(s, carried[1..])
    ensures HoldsAll(s, carried)
  {
    assert forall k :: 0 < k < |carried| ==> carried[k] == carried[1..][k - 1];
  }

  lemma WriteNext(to: Store, carried: seq<(string, string)>) returns (next: Store, ok: bool)
    requires carried != []
    ensures ok <==> TakesOne(At(to.script, 0), At(to.script, 1), carried[0].1)
    ensures SameBut(next.items, to.items, [carried[0].0])
    ensures ok ==> next.script == Rest(to.script, 2) && Held(next, carried[0].0) == Some(carried[0].1)
    ensures WriteAll(to, carried) == if ok then WriteAll(next, carried[1..]) else (next, false)
  {
    Later(to.script, 1, 0);
    Later(to.script, 1, 1);
    var written := SetItem(to, carried[0].0, carried[0].1);
    var back := GetItem(written.store, carried[0].0);
    next := if written.result.Ok? then back.store else written.store;
    ok := written.result.Ok? && back.result == Ok(Some(carried[0].1));
  }

  lemma NamesTail<T>(pairs: seq<(string, T)>)
    requires pairs != [] && NoDup(Names(pairs))
    ensures Names(pairs)[1..] == Names(pairs[1..]) && NoDup(Names(pairs[1..]))
    ensures pairs[0].0 !in Names(pairs[1..]) && pairs[0].0 in Names(pairs)
    ensures forall k :: k in Names(pairs[1..]) ==> k in Names(pairs)
  {
    assert Names(pairs)[1..] == Names(pairs[1..]);
    assert Names(pairs)[0] == pairs[0].0;
    NoDupTail(Names(pairs));
  }

  /** How many of the next `n` calls go by before one throws. */
  function Streak(script: seq<Fault>, n: nat): (r: nat)
    ensures r <= n && (r < n ==> At(script, r) == Throws) && Clear(script, r)
    decreases n
  {
    if n == 0 || At(script, 0) == Throws then 0
    else
      var r := 1 + Streak(Rest(script, 1), n - 1);
      ClearNext(script, r);
      Later(script, 1, r - 1);
      r
  }

  /** The source gives its keys up one by one until a call throws. */
  lemma {:induction false} RemoveAllRemoves(from: Store, carried: seq<(string, string)>, keys: seq<string>)
    requires keys == Names(carried) && NoDup(keys)
    ensures var (end, ok), up := RemoveAll(from, carried), Streak(from.script, |keys|);
            && SameBut(end.items, from.items, keys)
            && (ok <==> up == |keys|)
            && (!ok ==> end.script == Rest(from.script, up + 1))
            && GivesUp(from, end, keys, up)
    decreases |carried|
  {
    if carried != [] {
      NamesTail(carried);
      var gone := RemoveItem(from, carried[0].0);
      if gone.result.Ok? {
        RemoveAllRemoves(gone.store, carried[1..], keys[1..]);
        Later(from.script, 1, Streak(from.script, |keys|));
        var end := RemoveAll(gone.store, carried[1..]).0;
        GivesUpOneMore(from, gone.store, end, keys, Streak(gone.store.script, |keys| - 1));
      }
    }
  }

  /** The first `up` keys are gone, the others as they were. */
  ghost predicate GivesUp(from: Store, end: Store, keys: seq<string>, up: nat) {
    forall k :: 0 <= k < |keys| ==> Held(end, keys[k]) == LeftOf(from, keys[k], k < up)
  }

  lemma GivesUpOneMore(from: Store, next: Store, end: Store, keys: seq<string>, up: nat)
    requires NoDup(keys) && keys != [] && next.items == from.items - {keys[0]}
    requires GivesUp(next, end, keys[1..], up) && SameBut(end.items, next.items, keys[1..])
    ensures GivesUp(from, end, keys, up + 1)
  {
    NoDupTail(keys);
    forall k | 0 <= k < |keys| ensures Held(end, keys[k]) == LeftOf(from, keys[k], k < up + 1) {
      if k > 0 {
        assert keys[k] == keys[1..][k - 1] && keys[k] != keys[0];
      }
    }
  }

  /** What the source holds under a key it was, or was not, made to give up. */
  function LeftOf(from: Store, key: string, givenUp: bool): Option<string> {
    if givenUp then None else Held(from, key)
  }

  /** What is held under a name after putting it back: `now` before the call, `was` what it should be. */
  function AfterPut(fault: Fault, now: Option<string>, was: Option<string>): Option<string> {
    match fault
    case Works => was
    case Throws => now
    case Keeps(value) => if was.None? then None else Some(value)
  }

  lemma {:induction false} RestoreTouches(s: Store, names: seq<(string, Option<string>)>)
    requires NoDup(Names(names))
    ensures SameBut(Restore(s, names).items, s.items, Names(names))
    decreases |names|
  {
    if names != [] {
      NamesTail(names);
      RestoreTouches(PutBack(s, names[0].0, names[0].1), names[1..]);
    }
  }

  /** Each name ends as its own call left it. */
  lemma {:induction false} RestoreLeaves(s: Store, names: seq<(string, Option<string>)>, i: nat)
    requires NoDup(Names(names)) && i < |names|
    ensures Held(Restore(s, names), names[i].0) == AfterPut(At(s.script, i), Held(s, names[i].0), names[i].1)
    decreases |names|
  {
    NamesTail(names);
    var next, key := PutBack(s, names[0].0, names[0].1), names[i].0;
    PutBackLeaves(s, names[0].0, names[0].1, key);
    if i == 0 {
      RestoreTouches(next, names[1..]);
    } else {
      assert key == Names(names)[i] && names[0].0 == Names(names)[0];
      Later(s.script, 1, i - 1);
      RestoreLeaves(next, names[1..], i - 1);
    }
  }

  /** One call of a rollback: its own name ends as the fault says, any other stays. */
  lemma PutBackLeaves(s: Store, name: string, was: Option<string>, key: string)
    ensures var next := PutBack(s, name, was);
            && next.script == Rest(s.script, 1)
            && Held(next, key) == if key == name then AfterPut(At(s.script, 0), Held(s, key), was) else Held(s, key)
  {
  }

  /** Every call of a rollback leaves its name as it should be. */
  ghost predicate PutsAllBack(s: Store, names: seq<(string, Option<string>)>) {
    forall i :: 0 <= i < |names| ==> AfterPut(At(s.script, i), Held(s, names[i].0), names[i].1) == names[i].1
  }

  /** A rollback leaves the store as it was found exactly when each of its calls does. */
  lemma RestoredIsAsFound(s: Store, names: seq<(string, Option<string>)>, found: map<string, string>)
    requires NoDup(Names(names)) && SameBut(s.items, found, Names(names))
    requires forall i :: 0 <= i < |names| ==> names[i].1 == HeldIn(found, names[i].0)
    ensures Restore(s, names).items == found <==> PutsAllBack(s, names)
    ensures SameBut(Restore(s, names).items, found, Names(names))
  {
    RestoreTouches(s, names);
    forall i | 0 <= i < |names|
      ensures Held(Restore(s, names), names[i].0) == AfterPut(At(s.script, i), Held(s, names[i].0), names[i].1)
    {
      RestoreLeaves(s, names, i);
    }
    if PutsAllBack(s, names) {
      forall k | k in Names(names) ensures HeldIn(Restore(s, names).items, k) == HeldIn(found, k) {
        var i :| 0 <= i < |names| && Names(names)[i] == k;
        assert names[i].0 == k;
      }
      SameItems(Restore(s, names).items, found, Names(names));
    }
  }

  // ---------------------------------------------------------- what a move promises

  /** The keys of this session in a store. */
  ghost function Session(items: map<string, string>, prefix: string): set<string> {
    set k | k in items && prefix <= k
  }

  ghost function Taken(items: map<string, string>, keys: set<string>): map<string, string> {
    map k | k in items && k in keys :: items[k]
  }

  ghost predicate AllIn(keys: seq<string>, items: map<string, string>) {
    NoDup(keys) && forall k :: k in keys ==> k in items
  }

  /** Everything is read, written and read back: no call on the way throws or keeps something else. */
  ghost predicate Lands(from: Store, to: Store, keys: seq<string>)
    requires AllIn(keys, from.items)
  {
    && Clear(from.script, |keys|) && Clear(to.script, |keys|)
    && Takes(Rest(to.script, |keys|), Entries(keys, from.items))
  }

  /** How many keys the source gives up once everything has landed. */
  function GivenUp(from: Store, keys: seq<string>): nat {
    Streak(Rest(from.script, |keys|), |keys|)
  }

  lemma EntriesNames(keys: seq<string>, items: map<string, string>)
    requires forall k :: k in keys ==> k in items
    ensures Names(Entries(keys, items)) == keys
  {
  }

  /** Until everything has landed only the target is written, under names that are remembered. */
  lemma TryWrites(from: Store, to: Store, keys: seq<string>)
    requires AllIn(keys, from.items)
    ensures var a := Try(from, to, keys);
            && (a.landed <==> Lands(from, to, keys))
            && NoDup(Names(a.displaced)) && (forall k :: k in Names(a.displaced) ==> k in keys)
            && (forall i :: 0 <= i < |a.displaced| ==> a.displaced[i].1 == HeldIn(to.items, a.displaced[i].0))
            && SameBut(a.to.items, to.items, Names(a.displaced))
            && (!a.landed ==> a.from.items == from.items)
  {
    var start := Reading(from, to, [], []);
    var (r, readable) := ReadAll(start, keys);
    var n := ReadAllRemembers(start, keys);
    assert r.displaced == Remembered(keys[..n], to.items);
    assert Names(r.displaced) == keys[..n];
    ReadAllEnds(start, keys);
    if readable {
      EntriesNames(keys, from.items);
      assert r.carried == Entries(keys, from.items) && r.displaced == Remembered(keys, to.items);
      assert Names(r.displaced) == keys;
      WriteAllWrites(r.to, r.carried);
      WriteAllTouches(r.to, r.carried);
    }
  }

  /** Once everything has landed the target holds all of it, and the source gives up what it gives up. */
  lemma TryLands(from: Store, to: Store, keys: seq<string>)
    requires AllIn(keys, from.items) && Lands(from, to, keys)
    ensures var a := Try(from, to, keys);
            && a.landed && a.carried == Entries(keys, from.items) && a.displaced == Remembered(keys, to.items)
            && SameBut(a.to.items, to.items, keys)
            && (forall i :: 0 <= i < |keys| ==> Held(a.to, keys[i]) == Held(from, keys[i]))
            && a.to.script == Rest(to.script, 3 * |keys|)
  {
    var _, target := AllRead(from, to, keys);
    TargetTakes(target, keys, from.items);
    Later(to.script, |keys|, 2 * |keys|);
  }

  lemma TryLeaves(from: Store, to: Store, keys: seq<string>)
    requires AllIn(keys, from.items) && Lands(from, to, keys)
    ensures Leaves(from, Try(from, to, keys), keys)
  {
    var source, _ := AllRead(from, to, keys);
    TryWrites(from, to, keys);
    GivesUpWhat(from, source, Try(from, to, keys), keys);
  }

  /** The source has given up its first keys, as many as calls went by, and stopped at the one that threw. */
  ghost predicate Leaves(from: Store, a: Attempt, keys: seq<string>) {
    var up := GivenUp(from, keys);
    && (a.gone <==> up == |keys|)
    && SameBut(a.from.items, from.items, keys) && GivesUp(from, a.from, keys, up)
    && (!a.gone ==> a.from.script == Rest(from.script, |keys| + up + 1))
  }

  lemma GivesUpWhat(from: Store, source: Store, a: Attempt, keys: seq<string>)
    requires AllIn(keys, from.items) && source == from.(script := Rest(from.script, |keys|))
    requires a.from == RemoveAll(source, Entries(keys, from.items)).0
    requires a.gone == RemoveAll(source, Entries(keys, from.items)).1
    ensures Leaves(from, a, keys)
  {
    SourceGives(from, source, keys);
    Later(from.script, |keys|, GivenUp(from, keys) + 1);
  }

  /** Once everything is read the attempt is its writes and, when they land, its removals. */
  lemma AllRead(from: Store, to: Store, keys: seq<string>) returns (source: Store, target: Store)
    requires AllIn(keys, from.items) && Clear(from.script, |keys|) && Clear(to.script, |keys|)
    ensures source == from.(script := Rest(from.script, |keys|)) && target == to.(script := Rest(to.script, |keys|))
    ensures var a, carried := Try(from, to, keys), Entries(keys, from.items);
            && a.carried == carried && a.displaced == Remembered(keys, to.items)
            && a.landed == WriteAll(target, carried).1 && a.to == WriteAll(target, carried).0
            && (a.landed ==> a.from == RemoveAll(source, carried).0 && a.gone == RemoveAll(source, carried).1)
  {
    source, target := from.(script := Rest(from.script, |keys|)), to.(script := Rest(to.script, |keys|));
    ReadAllEnds(Reading(from, to, [], []), keys);
    assert [] + Entries(keys, from.items) == Entries(keys, from.items);
    assert [] + Remembered(keys, to.items) == Remembered(keys, to.items);
  }

  lemma TargetTakes(to: Store, keys: seq<string>, items: map<string, string>)
    requires AllIn(keys, items) && Takes(to.script, Entries(keys, items))
    ensures var (end, ok) := WriteAll(to, Entries(keys, items));
            && ok && end.script == Rest(to.script, 2 * |keys|) && SameBut(end.items, to.items, keys)
            && forall i :: 0 <= i < |keys| ==> Held(end, keys[i]) == HeldIn(items, keys[i])
  {
    var carried := Entries(keys, items);
    EntriesNames(keys, items);
    WriteAllWrites(to, carried);
    WriteAllTouches(to, carried);
    forall i | 0 <= i < |keys| ensures carried[i].0 == keys[i] && Some(carried[i].1) == HeldIn(items, keys[i]) {
    }
  }

  lemma SourceGives(from: Store, source: Store, keys: seq<string>)
    requires AllIn(keys, from.items) && source.items == from.items
    ensures var (end, ok), up := RemoveAll(source, Entries(keys, from.items)), Streak(source.script, |keys|);
            && (ok <==> up == |keys|) && (!ok ==> end.script == Rest(source.script, up + 1))
            && SameBut(end.items, from.items, keys) && GivesUp(from, end, keys, up)
  {
    EntriesNames(keys, from.items);
    RemoveAllRemoves(source, Entries(keys, from.items), keys);
    SameGivesUp(from, source, RemoveAll(source, Entries(keys, from.items)).0, keys, Streak(source.script, |keys|));
  }

  lemma SameGivesUp(from: Store, source: Store, end: Store, keys: seq<string>, up: nat)
    requires source.items == from.items && GivesUp(source, end, keys, up)
    ensures GivesUp(from, end, keys, up)
  {
    assert forall k :: LeftOf(source, k, false) == LeftOf(from, k, false);
  }

  /** What is in both stores when the whole session has gone across. */
  lemma TryEnds(from: Store, to: Store, keys: seq<string>)
    requires AllIn(keys, from.items) && Try(from, to, keys).gone
    ensures var a := Try(from, to, keys);
            && a.landed && |a.carried| == |keys|
            && a.from.items == from.items - Elements(keys)
            && a.to.items == to.items + Taken(from.items, Elements(keys))
  {
    TryWrites(from, to, keys);
    TryLands(from, to, keys);
    TryLeaves(from, to, keys);
    var a := Try(from, to, keys);
    AllLeft(from, a.from, keys);
    AllArrived(from, to, a.to, keys);
  }

  lemma AllLeft(from: Store, end: Store, keys: seq<string>)
    requires GivesUp(from, end, keys, |keys|) && SameBut(end.items, from.items, keys)
    ensures end.items == from.items - Elements(keys)
  {
    var left := from.items - Elements(keys);
    forall k | k in keys ensures HeldIn(end.items, k) == HeldIn(left, k) {
      var i :| 0 <= i < |keys| && keys[i] == k;
    }
    SameItems(end.items, left, keys);
  }

  lemma AllArrived(from: Store, to: Store, end: Store, keys: seq<string>)
    requires AllIn(keys, from.items) && SameBut(end.items, to.items, keys)
    requires forall i :: 0 <= i < |keys| ==> Held(end, keys[i]) == Held(from, keys[i])
    ensures end.items == to.items + Taken(from.items, Elements(keys))
  {
    var full := to.items + Taken(from.items, Elements(keys));
    forall k | k in keys ensures HeldIn(end.items, k) == HeldIn(full, k) {
      var i :| 0 <= i < |keys| && keys[i] == k;
    }
    SameItems(end.items, full, keys);
  }

  lemma EnumeratedAre(from: Store, prefix: string)
    requires Valid(from)
    ensures var found, keys := Enumerate(from, prefix, 0, []), UnderPrefix(from.keys, prefix);
            && found.store.items == from.items
            && AllIn(keys, from.items) && (forall k :: k in keys <==> k in from.items && prefix <= k)
            && (if Clear(from.script, 2 * |from.keys| + 1)
                then found.keys == keys && found.store.script == Rest(from.script, 2 * |from.keys| + 1)
                else found.keys == [])
  {
    EnumerateFinds(from, prefix, 0, []);
    UnderPrefixAre(from.keys, prefix);
    assert from.keys[0..] == from.keys;
    assert [] + UnderPrefix(from.keys, prefix) == UnderPrefix(from.keys, prefix);
  }

  /** The source as it stands once it has been walked. */
  function Walked(from: Store): Store {
    from.(script := Rest(from.script, 2 * |from.keys| + 1))
  }

  /** A source that can be walked is moved from as one already walked. */
  lemma MoveIsMoveKeys(from: Store, to: Store, prefix: string)
    requires Valid(from) && prefix != "" && UnderPrefix(from.keys, prefix) != []
    requires Clear(from.script, 2 * |from.keys| + 1)
    ensures Move(from, to, prefix) == MoveKeys(Walked(from), to, UnderPrefix(from.keys, prefix))
  {
    EnumerateFinds(from, prefix, 0, []);
    EnumeratedAre(from, prefix);
    assert Enumerate(from, prefix, 0, []).store == Walked(from);
  }

  lemma RefusedWasWalked(from: Store, to: Store, prefix: string)
    requires Valid(from) && Move(from, to, prefix).outcome.Refused?
    ensures prefix != "" && UnderPrefix(from.keys, prefix) != [] && Clear(from.script, 2 * |from.keys| + 1)
    ensures AllIn(UnderPrefix(from.keys, prefix), from.items)
    ensures Move(from, to, prefix) == MoveKeys(Walked(from), to, UnderPrefix(from.keys, prefix))
  {
    EnumeratedAre(from, prefix);
    MoveIsMoveKeys(from, to, prefix);
  }

  /**
   * When a move succeeds, for every script of failures: a source that cannot be
   * walked has nothing to move; otherwise the session moves exactly when it lands
   * and the source gives up every key.
   */
  lemma OutcomeIs(from: Store, to: Store, prefix: string)
    requires Valid(from) && prefix != "" && UnderPrefix(from.keys, prefix) != []
    ensures var keys := UnderPrefix(from.keys, prefix);
            && AllIn(keys, from.items)
            && Move(from, to, prefix).outcome
            == if !Clear(from.script, 2 * |from.keys| + 1) then Done(0)
               else if Lands(Walked(from), to, keys) && GivenUp(Walked(from), keys) == |keys| then Done(|keys|)
               else Refused
  {
    var keys := UnderPrefix(from.keys, prefix);
    EnumeratedAre(from, prefix);
    if Clear(from.script, 2 * |from.keys| + 1) {
      MoveIsMoveKeys(from, to, prefix);
      TryWrites(Walked(from), to, keys);
      if Lands(Walked(from), to, keys) {
        TryLands(Walked(from), to, keys);
        TryLeaves(Walked(from), to, keys);
      }
    }
  }

  /**
   * An answer that it is done means one of two things: every key of the session
   * is in the target, unchanged, and in the source no more, with every other key
   * of both untouched; or the source could not be walked or held none, and
   * nothing has changed.
   */
  lemma DoneIsComplete(from: Store, to: Store, prefix: string)
    requires Valid(from) && Move(from, to, prefix).outcome.Done?
    ensures var m, keys := Move(from, to, prefix), Session(from.items, prefix);
            || (&& m.outcome.moved == |keys|
                && m.from.items == from.items - keys
                && m.to.items == to.items + Taken(from.items, keys))
            || (m.outcome.moved == 0 && m.from.items == from.items && m.to.items == to.items)
  {
    var keys := UnderPrefix(from.keys, prefix);
    EnumeratedAre(from, prefix);
    if prefix != "" && Enumerate(from, prefix, 0, []).keys != [] {
      MoveIsMoveKeys(from, to, prefix);
      TryEnds(Walked(from), to, keys);
      NoDupCardinality(keys);
      assert Elements(keys) == Session(from.items, prefix);
    }
  }

  /**
   * A refusal leaves each store exactly as it was found, the values the target
   * already held included, if and only if every call of that store's rollback does
   * its part; and keys outside the session are as they were in any case. The
   * source has nothing to put back unless everything had landed.
   */
  lemma RefusedIsUndone(from: Store, to: Store, prefix: string)
    requires Valid(from) && Move(from, to, prefix).outcome.Refused?
    ensures var m, a := Move(from, to, prefix), Try(Walked(from), to, UnderPrefix(from.keys, prefix));
            && (m.from.items == from.items <==> !a.landed || PutsAllBack(a.from, Given(a.carried)))
            && (m.to.items == to.items <==> PutsAllBack(a.to, a.displaced))
            && forall k :: !(k in from.items && prefix <= k) ==>
                 HeldIn(m.from.items, k) == HeldIn(from.items, k) && HeldIn(m.to.items, k) == HeldIn(to.items, k)
  {
    RefusedWasWalked(from, to, prefix);
    EnumeratedAre(from, prefix);
    RolledBack(Walked(from), to, UnderPrefix(from.keys, prefix));
  }

  lemma RolledBack(from: Store, to: Store, keys: seq<string>)
    requires AllIn(keys, from.items) && !Try(from, to, keys).gone
    ensures var m, a := MoveKeys(from, to, keys), Try(from, to, keys);
            && (m.from.items == from.items <==> !a.landed || PutsAllBack(a.from, Given(a.carried)))
            && (m.to.items == to.items <==> PutsAllBack(a.to, a.displaced))
            && SameBut(m.from.items, from.items, keys) && SameBut(m.to.items, to.items, keys)
  {
    TryWrites(from, to, keys);
    var a := Try(from, to, keys);
    RestoredIsAsFound(a.to, a.displaced, to.items);
    if a.landed {
      TryLands(from, to, keys);
      TryLeaves(from, to, keys);
      SourceRolledBack(a.from, keys, from.items);
    }
  }

  lemma SourceRolledBack(left: Store, keys: seq<string>, found: map<string, string>)
    requires AllIn(keys, found) && SameBut(left.items, found, keys)
    ensures var names := Given(Entries(keys, found));
            && (Restore(left, names).items == found <==> PutsAllBack(left, names))
            && SameBut(Restore(left, names).items, found, keys)
  {
    var names := Given(Entries(keys, found));
    assert Names(names) == keys;
    RestoredIsAsFound(left, names, found);
  }

  /** A session key is in one store or the other, as it was. */
  ghost predicate Survives(from: Store, m: Moved, key: string) {
    Held(m.from, key) == Held(from, key) || Held(m.to, key) == Held(from, key)
  }

  /**
   * Whether the calls a walked source and the target still have to come keep key
   * number `i` somewhere: not everything lands; or the source was not asked for the
   * key, or takes it back; or the target's call to put its own back leaves the key
   * there. The source's calls are one read a key, the removals up to the one that
   * throws, one call a key back; the target's are three a key, then one back.
   */
  ghost predicate Kept(from: Store, to: Store, keys: seq<string>, i: nat)
    requires AllIn(keys, from.items) && i < |keys|
  {
    var key, value, up := keys[i], Held(from, keys[i]), GivenUp(from, keys);
    || !Lands(from, to, keys)
    || AfterPut(At(from.script, |keys| + up + 1 + i), LeftOf(from, key, i < up), value) == value
    || AfterPut(At(to.script, 3 * |keys| + i), value, Held(to, key)) == value
  }

  /** What one key is held as in both stores, once an attempt that landed is undone. */
  lemma KeyRolledBack(from: Store, to: Store, keys: seq<string>, i: nat)
    requires AllIn(keys, from.items) && i < |keys| && MoveKeys(from, to, keys).outcome.Refused?
    ensures var m, up, value := MoveKeys(from, to, keys), GivenUp(from, keys), Held(from, keys[i]);
            if Lands(from, to, keys) then
              && Held(m.from, keys[i])
                 == AfterPut(At(from.script, |keys| + up + 1 + i), LeftOf(from, keys[i], i < up), value)
              && Held(m.to, keys[i]) == AfterPut(At(to.script, 3 * |keys| + i), value, Held(to, keys[i]))
            else m.from.items == from.items
  {
    TryWrites(from, to, keys);
    if Try(from, to, keys).landed {
      KeyGivenBack(from, to, keys, i);
      KeyPutBack(from, to, keys, i);
    }
  }

  lemma KeyGivenBack(from: Store, to: Store, keys: seq<string>, i: nat)
    requires AllIn(keys, from.items) && i < |keys| && Lands(from, to, keys) && !Try(from, to, keys).gone
    ensures var a, up := Try(from, to, keys), GivenUp(from, keys);
            Held(Restore(a.from, Given(a.carried)), keys[i])
            == AfterPut(At(from.script, |keys| + up + 1 + i), LeftOf(from, keys[i], i < up), Held(from, keys[i]))
  {
    TryLands(from, to, keys);
    TryLeaves(from, to, keys);
    var a := Try(from, to, keys);
    var given := Given(a.carried);
    assert Names(given) == keys && given[i] == (keys[i], Held(from, keys[i]));
    RestoreLeaves(a.from, given, i);
    Later(from.script, |keys| + GivenUp(from, keys) + 1, i);
  }

  lemma KeyPutBack(from: Store, to: Store, keys: seq<string>, i: nat)
    requires AllIn(keys, from.items) && i < |keys| && Lands(from, to, keys)
    ensures var a := Try(from, to, keys);
            Held(Restore(a.to, a.displaced), keys[i])
            == AfterPut(At(to.script, 3 * |keys| + i), Held(from, keys[i]), Held(to, keys[i]))
  {
    TryLands(from, to, keys);
    var a := Try(from, to, keys);
    assert Names(a.displaced) == keys && a.displaced[i] == (keys[i], Held(to, keys[i]));
    RestoreLeaves(a.to, a.displaced, i);
    Later(to.script, 3 * |keys|, i);
  }

  lemma KeptSurvives(from: Store, to: Store, keys: seq<string>, i: nat)
    requires AllIn(keys, from.items) && i < |keys| && MoveKeys(from, to, keys).outcome.Refused?
    ensures Survives(from, MoveKeys(from, to, keys), keys[i]) <==> Kept(from, to, keys, i)
  {
    KeyRolledBack(from, to, keys, i);
  }

  /** When a move is refused, whatever the target held, each session key survives exactly when those calls keep it. */
  lemma SurvivesExactlyWhen(from: Store, to: Store, prefix: string, i: nat)
    requires Valid(from) && Move(from, to, prefix).outcome.Refused? && i < |UnderPrefix(from.keys, prefix)|
    ensures var keys := UnderPrefix(from.keys, prefix);
            && AllIn(keys, from.items)
            && (Survives(from, Move(from, to, prefix), keys[i]) <==> Kept(Walked(from), to, keys, i))
  {
    RefusedWasWalked(from, to, prefix);
    KeptSurvives(Walked(from), to, UnderPrefix(from.keys, prefix), i);
  }

  /** The source is only ever written once every key has been read back from the target. */
  lemma SourceUntouchedUntilLanded(from: Store, to: Store, keys: seq<string>)
    requires AllIn(keys, from.items)
    ensures var a := Try(from, to, keys);
            && (!a.landed ==> MoveKeys(from, to, keys).from.items == from.items)
            && (a.landed ==> forall k :: k in keys ==> Held(a.to, k) == Held(from, k))
  {
    TryWrites(from, to, keys);
    if Try(from, to, keys).landed {
      TryLands(from, to, keys);
    }
  }

  // ------------------------------------------------------- where a session is lost

  /** A source with two keys and the given calls still to come. */
  function Two(script: seq<Fault>): Store {
    Store(map["sb-a" := "1", "sb-b" := "2"], ["sb-a", "sb-b"], script)
  }

  /** Walked and read, it gives up one key, refuses to give up the other, and refuses to take the first one back. */
  const REFUSING := [Works, Works, Works, Works, Works, Works, Works, Works, Throws, Throws]

  /**
   * The worst case is a session key that ends in neither store: the source gave it
   * up, refused to give up another and then to take the first one back, after
   * which the target is put back to not holding it.
   */
  lemma RefusedCanLoseAKey(from: Store, to: Store, prefix: string)
    requires from == Two(REFUSING) && to == Store(map[], [], []) && prefix == "sb-"
    ensures var m := Move(from, to, prefix);
            m.outcome.Refused? && "sb-a" in from.items && !Survives(from, m, "sb-a")
  {
    RefusingIsWalked(from);
    BothUnderPrefix(from.keys, prefix);
    RefusingKeepsNothing(Walked(from), to, from.keys);
    OutcomeIs(from, to, prefix);
    SurvivesExactlyWhen(from, to, prefix, 0);
  }

  lemma RefusingIsWalked(from: Store)
    requires from == Two(REFUSING)
    ensures Valid(from) && Clear(from.script, 2 * |from.keys| + 1)
    ensures Walked(from) == Two([Works, Works, Works, Throws, Throws])
  {
  }

  lemma BothUnderPrefix(keys: seq<string>, prefix: string)
    requires keys == ["sb-a", "sb-b"] && prefix == "sb-"
    ensures UnderPrefix(keys, prefix) == keys
  {
    var rest := keys[1..];
    assert rest == ["sb-b"] && rest[1..] == [] && prefix <= keys[0] && prefix <= rest[0];
    assert UnderPrefix(rest, prefix) == [rest[0]] + [];
    assert keys == [keys[0]] + rest;
  }

  lemma RefusingKeepsNothing(walked: Store, to: Store, keys: seq<string>)
    requires walked == Two([Works, Works, Works, Throws, Throws])
    requires to == Store(map[], [], []) && keys == walked.keys
    ensures AllIn(keys, walked.items) && Lands(walked, to, keys) && GivenUp(walked, keys) == 1
    ensures !Kept(walked, to, keys, 0)
  {
    var script := Rest(walked.script, 2);
    assert script == [Works, Throws, Throws];
    assert Rest(script, 1) == [Throws, Throws];
    assert "sb-a" != "sb-b";
  }
}
