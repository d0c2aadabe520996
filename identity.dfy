/**
 * The stable-identity registry of the tracking server (`_get_human_id` in
 * server.py): a map from a (class name, raw tracker id) key to a
 * human-readable identity such as "Man1" or "Child3", minted from a counter
 * kept per class.
 *
 * This module holds the registry as a value and states what one assignment
 * does; the server's module-level dictionaries that hold it are the fields of
 * `Tracking.TrackingServer`, whose `GetHumanId` method is proved against
 * `Assign` below.
 */
module Identity {
  import opened Text

  /** The classes the server tracks; every other detector class is ignored. */
  const TargetClasses: set<string> := {"man", "woman", "child"}

  /** (lower-cased class name, raw track id) */
  type TrackKey = (string, int)

  /** `class_counters` and `track_to_human_id`. */
  datatype Registry = Registry(counters: map<string, nat>, ids: map<TrackKey, string>)

  /** The identity minted for the `n`-th subject of class `cls`: f"{cls.capitalize()}{n}". */
  function MintId(cls: string, n: nat): string {
    Capitalize(cls) + NatToString(n)
  }

  /** The registry at start-up: every target class at 0, no keys. */
  function Initial(): (r: Registry)
    ensures r.counters.Keys == TargetClasses
    ensures forall c :: c in TargetClasses ==> r.counters[c] == 0
    ensures r.ids == map[]
  {
    Registry(map c | c in TargetClasses :: 0, map[])
  }

  /**
   * One call of `_get_human_id(cls, tid)`: the identity for the key and the
   * registry afterwards. The source indexes `class_counters[cls]`, so a class
   * without a counter is outside its domain.
   */
  function Assign(r: Registry, cls: string, tid: int): (res: (Registry, string))
    requires cls in r.counters
    ensures (cls, tid) in res.0.ids && res.0.ids[(cls, tid)] == res.1
    ensures res.0.counters.Keys == r.counters.Keys
    ensures r.ids.Keys <= res.0.ids.Keys
    ensures forall k :: k in r.ids ==> res.0.ids[k] == r.ids[k]
  {
    var key := (cls, tid);
    if key in r.ids then
      (r, r.ids[key])
    else
      var n := r.counters[cls] + 1;
      var id := MintId(cls, n);
      (Registry(r.counters[cls := n], r.ids[key := id]), id)
  }

  // ---------------------------------------------------------------------------
  // The registry invariant
  // ---------------------------------------------------------------------------

  /** The keys of class `c` in the registry. */
  function KeysOf(r: Registry, c: string): set<TrackKey> {
    set k | k in r.ids && k.0 == c
  }

  /** The identities handed out to class `c`. */
  function IdsOf(r: Registry, c: string): set<string> {
    set k | k in r.ids && k.0 == c :: r.ids[k]
  }

  /** Cap(c)1 .. Cap(c)n */
  function MintRange(c: string, n: nat): set<string> {
    set j | 1 <= j <= n :: MintId(c, j)
  }

  /** No two keys share an identity. */
  ghost predicate Injective(m: map<TrackKey, string>) {
    forall k1, k2 :: k1 in m && k2 in m && k1 != k2 ==> m[k1] != m[k2]
  }

  /**
   * For every target class c with counter n: exactly n keys of class c are
   * registered and their identities are exactly Cap(c)1 .. Cap(c)n; no key of
   * another class is registered; no identity is shared.
   */
  ghost predicate Valid(r: Registry) {
    && r.counters.Keys == TargetClasses
    && (forall k :: k in r.ids ==> k.0 in TargetClasses)
    && (forall c :: c in TargetClasses ==> |KeysOf(r, c)| == r.counters[c])
    && (forall c :: c in TargetClasses ==> IdsOf(r, c) == MintRange(c, r.counters[c]))
    && Injective(r.ids)
  }

  // ---------------------------------------------------------------------------
  // Facts about minted identities
  // ---------------------------------------------------------------------------

  lemma CapitalizedTargets()
    ensures Capitalize("man") == "Man"
    ensures Capitalize("woman") == "Woman"
    ensures Capitalize("child") == "Child"
  {
    assert Lower("an") == "an";
    assert Lower("oman") == "oman";
    assert Lower("hild") == "hild";
  }

  /** The target class names start with distinct letters (m, w, c). */
  lemma TargetInitialsDistinct(c1: string, c2: string)
    requires c1 in TargetClasses && c2 in TargetClasses
    ensures |c1| > 0 && |c2| > 0
    ensures c1[0] == c2[0] ==> c1 == c2
    ensures IsLowerLetter(c1[0]) && IsLowerLetter(c2[0])
  {
    assert c1 == "man" || c1 == "woman" || c1 == "child";
    assert c2 == "man" || c2 == "woman" || c2 == "child";
  }

  /** An identity determines its class and its ordinal: minted identities never collide. */
  lemma MintIdInjective(c1: string, n1: nat, c2: string, n2: nat)
    requires c1 in TargetClasses && c2 in TargetClasses
    requires MintId(c1, n1) == MintId(c2, n2)
    ensures c1 == c2 && n1 == n2
  {
    TargetInitialsDistinct(c1, c2);
    var cap1, cap2 := Capitalize(c1), Capitalize(c2);
    var s1, s2 := MintId(c1, n1), MintId(c2, n2);
    assert s1[0] == cap1[0];
    assert s2[0] == cap2[0];
    assert c1 == c2;
    var p := |cap1|;
    assert s1[p..] == NatToString(n1);
    assert s2[p..] == NatToString(n2);
    NatToStringInjective(n1, n2);
  }

  lemma InitialValid()
    ensures Valid(Initial())
  {
    var r := Initial();
    forall c | c in TargetClasses
      ensures |KeysOf(r, c)| == 0 && IdsOf(r, c) == MintRange(c, 0)
    {
      assert KeysOf(r, c) == {};
      assert MintRange(c, 0) == {};
    }
  }

  // ---------------------------------------------------------------------------
  // What one assignment does
  // ---------------------------------------------------------------------------

  /** Asking again for a registered key returns its identity and changes nothing. */
  lemma AssignKnownKey(r: Registry, cls: string, tid: int)
    requires cls in r.counters && (cls, tid) in r.ids
    ensures Assign(r, cls, tid) == (r, r.ids[(cls, tid)])
  {
  }

  /**
   * A new key bumps its own class's counter by exactly one, leaves every
   * other counter alone, and receives Cap(cls) followed by the new counter.
   */
  lemma AssignNewKey(r: Registry, cls: string, tid: int)
    requires cls in r.counters && (cls, tid) !in r.ids
    ensures var (r', id) := Assign(r, cls, tid);
      && r'.counters[cls] == r.counters[cls] + 1
      && (forall c :: c in r.counters && c != cls ==> r'.counters[c] == r.counters[c])
      && id == MintId(cls, r.counters[cls] + 1)
      && r'.ids == r.ids[(cls, tid) := id]
  {
  }

  /** A newly minted identity was not handed out before. */
  lemma {:induction false} FreshIdUnused(r: Registry, cls: string, tid: int)
    requires Valid(r) && cls in TargetClasses && (cls, tid) !in r.ids
    ensures MintId(cls, r.counters[cls] + 1) !in r.ids.Values
  {
    var id := MintId(cls, r.counters[cls] + 1);
    if id in r.ids.Values {
      var k :| k in r.ids && r.ids[k] == id;
      var c := k.0;
      assert r.ids[k] in IdsOf(r, c);
      assert id in MintRange(c, r.counters[c]);
      var j :| 1 <= j <= r.counters[c] && MintId(c, j) == id;
      MintIdInjective(c, j, cls, r.counters[cls] + 1);
      assert false;
    }
  }

  /** Registering `key` with identity `id` adds exactly that key and that identity to its class. */
  lemma AddKeySets(r: Registry, r': Registry, key: TrackKey, id: string, c: string)
    requires key !in r.ids && r'.ids == r.ids[key := id]
    ensures c == key.0 ==> KeysOf(r', c) == KeysOf(r, c) + {key}
    ensures c == key.0 ==> IdsOf(r', c) == IdsOf(r, c) + {id}
    ensures c != key.0 ==> KeysOf(r', c) == KeysOf(r, c)
    ensures c != key.0 ==> IdsOf(r', c) == IdsOf(r, c)
  {
  }

  lemma MintRangeNext(c: string, n: nat)
    ensures MintRange(c, n + 1) == MintRange(c, n) + {MintId(c, n + 1)}
  {
  }

  /** After a new key: the per-class counts and identity ranges still line up. */
  lemma NewKeyClassSets(r: Registry, cls: string, tid: int, c: string)
    requires cls in r.counters && c in r.counters && (cls, tid) !in r.ids
    requires |KeysOf(r, c)| == r.counters[c] && IdsOf(r, c) == MintRange(c, r.counters[c])
    ensures var r' := Assign(r, cls, tid).0;
      |KeysOf(r', c)| == r'.counters[c] && IdsOf(r', c) == MintRange(c, r'.counters[c])
  {
    var key := (cls, tid);
    var n := r.counters[cls] + 1;
    var id := MintId(cls, n);
    var r' := Registry(r.counters[cls := n], r.ids[key := id]);
    assert Assign(r, cls, tid).0 == r';
    AddKeySets(r, r', key, id, c);
    if c == cls {
      assert key !in KeysOf(r, c);
      MintRangeNext(c, r.counters[c]);
    }
  }

  /** After a new key: still no identity shared by two keys. */
  lemma {:induction false} NewKeyInjective(r: Registry, cls: string, tid: int)
    requires Valid(r) && cls in TargetClasses && (cls, tid) !in r.ids
    ensures Injective(Assign(r, cls, tid).0.ids)
  {
    var key := (cls, tid);
    var (r', id) := Assign(r, cls, tid);
    FreshIdUnused(r, cls, tid);
    forall k1, k2 | k1 in r'.ids && k2 in r'.ids && k1 != k2
      ensures r'.ids[k1] != r'.ids[k2]
    {
      if k1 == key {
        assert r.ids[k2] in r.ids.Values;
      } else if k2 == key {
        assert r.ids[k1] in r.ids.Values;
      }
    }
  }

  /** Every assignment keeps the registry invariant. */
  lemma {:induction false} AssignPreservesValid(r: Registry, cls: string, tid: int)
    requires Valid(r) && cls in TargetClasses
    ensures Valid(Assign(r, cls, tid).0)
  {
    if (cls, tid) !in r.ids {
      forall c | c in TargetClasses
        ensures var r' := Assign(r, cls, tid).0;
          |KeysOf(r', c)| == r'.counters[c] && IdsOf(r', c) == MintRange(c, r'.counters[c])
      {
        NewKeyClassSets(r, cls, tid, c);
      }
      NewKeyInjective(r, cls, tid);
    }
  }

  /** The identity returned for a key is never the identity of a different key. */
  lemma AssignNeverShared(r: Registry, cls: string, tid: int, other: TrackKey)
    requires Valid(r) && cls in TargetClasses
    requires other in Assign(r, cls, tid).0.ids && other != (cls, tid)
    ensures Assign(r, cls, tid).0.ids[other] != Assign(r, cls, tid).1
  {
    AssignPreservesValid(r, cls, tid);
  }

  // ---------------------------------------------------------------------------
  // Sequences of assignments
  // ---------------------------------------------------------------------------

  /** The identities returned by a run of calls, and the registry afterwards. */
  function AssignAll(r: Registry, keys: seq<TrackKey>): (res: (Registry, seq<string>))
    requires forall i :: 0 <= i < |keys| ==> keys[i].0 in TargetClasses
    requires TargetClasses <= r.counters.Keys
    ensures |res.1| == |keys|
    ensures res.0.counters.Keys == r.counters.Keys
    ensures forall k :: k in r.ids ==> k in res.0.ids && res.0.ids[k] == r.ids[k]
    ensures forall i :: 0 <= i < |keys| ==> keys[i] in res.0.ids && res.0.ids[keys[i]] == res.1[i]
    ensures Valid(r) ==> Valid(res.0)
    decreases |keys|
  {
    if keys == [] then (r, [])
    else
      var (r1, id) := Assign(r, keys[0].0, keys[0].1);
      assert Valid(r) ==> Valid(r1) by {
        if Valid(r) {
          AssignPreservesValid(r, keys[0].0, keys[0].1);
        }
      }
      var (r2, ids) := AssignAll(r1, keys[1..]);
      (r2, [id] + ids)
  }

  /** Over a run from a valid registry, two different keys never receive the same identity. */
  lemma AssignAllNeverShared(r: Registry, keys: seq<TrackKey>, i: nat, j: nat)
    requires Valid(r) && forall k :: 0 <= k < |keys| ==> keys[k].0 in TargetClasses
    requires i < |keys| && j < |keys| && keys[i] != keys[j]
    ensures AssignAll(r, keys).1[i] != AssignAll(r, keys).1[j]
  {
    var res := AssignAll(r, keys);
    assert keys[i] in res.0.ids && keys[j] in res.0.ids;
  }

  /** man 7, man 9, man 7 from start-up give Man1, Man2, Man1. */
  lemma RepeatedKeyScenario()
    ensures AssignAll(Initial(), [("man", 7), ("man", 9), ("man", 7)]).1 == ["Man1", "Man2", "Man1"]
  {
    CapitalizedTargets();
    assert NatToString(1) == "1";
    assert NatToString(2) == "2";
    var r0 := Initial();
    var (r1, a) := Assign(r0, "man", 7);
    assert a == "Man1";
    var (r2, b) := Assign(r1, "man", 9);
    assert b == "Man2";
    var (r3, c) := Assign(r2, "man", 7);
    assert c == "Man1";
  }
}
