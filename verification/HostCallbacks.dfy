/** The keyed registry of host callbacks: 32 locked shards that act as one map.

    Goroutines and driver threads interleave at the atomic key counter and at the shard
    locks: Register draws its key first and stores the callback later. A callback itself runs
    after the lock is gone. */
module HostCallbacks {
  const SHARDS := 32

  // ---- One map

  // drawn: keys a Register has drawn and not stored yet, each with its callback; pending: the
  // stored callbacks; ran: the keys whose callback was run, in order, with the callback.
  datatype Spec = Spec(nextKey: nat, drawn: map<nat, int>, pending: map<nat, int>, ran: seq<(nat, int)>)

  const EMPTY := Spec(0, map[], map[], [])

  datatype Op = Draw(fn: int) | Store(key: nat) | Unregister(key: nat) | Invoke(key: nat)

  function Apply(s: Spec, op: Op): Spec {
    match op
    case Draw(fn) => s.(nextKey := s.nextKey + 1, drawn := s.drawn[s.nextKey + 1 := fn])
    case Store(key) =>
      if key in s.drawn then s.(drawn := s.drawn - {key}, pending := s.pending[key := s.drawn[key]]) else s
    case Unregister(key) => s.(pending := s.pending - {key})
    case Invoke(key) =>
      if key in s.pending then s.(pending := s.pending - {key}, ran := s.ran + [(key, s.pending[key])]) else s
  }

  function Run(ops: seq<Op>): Spec {
    if ops == [] then EMPTY else Apply(Run(ops[..|ops| - 1]), ops[|ops| - 1])
  }

  // ---- The shards

  class Registry {
    const shards: array<map<nat, int>>
    var nextKey: nat
    var ran: seq<(nat, int)>

    ghost predicate Valid()
      reads this, shards
    {
      && shards.Length == SHARDS
      && forall i, k :: 0 <= i < SHARDS && k in shards[i] ==> k % SHARDS == i
    }

    // The registry is the map s; drawn keys are in their goroutines' hands.
    ghost predicate Is(s: Spec)
      reads this, shards
    {
      && Valid() && nextKey == s.nextKey && ran == s.ran
      && (forall k: nat :: k in s.pending <==> k in shards[k % SHARDS])
      && (forall k: nat :: k in s.pending ==> shards[k % SHARDS][k] == s.pending[k])
    }

    constructor ()
      ensures Is(EMPTY) && fresh(shards)
    {
      shards := new map<nat, int>[SHARDS](_ => map[]);
      nextKey, ran := 0, [];
    }

    // nextKey.Add(1).
    method DrawKey(fn: int, ghost s: Spec) returns (key: nat)
      requires Is(s)
      modifies this`nextKey
      ensures key == s.nextKey + 1 && Is(Apply(s, Draw(fn)))
    {
      nextKey := nextKey + 1;
      key := nextKey;
    }

    // The locked part of Register.
    method StoreCallback(key: nat, fn: int, ghost s: Spec)
      requires Is(s) && key in s.drawn && s.drawn[key] == fn
      modifies shards
      ensures Is(Apply(s, Store(key)))
    {
      shards[key % SHARDS] := shards[key % SHARDS][key := fn];
    }

    method Register(fn: int, ghost s: Spec) returns (key: nat)
      requires Is(s)
      modifies this`nextKey, shards
      ensures key == s.nextKey + 1 && Is(Apply(Apply(s, Draw(fn)), Store(key)))
    {
      key := DrawKey(fn, s);
      StoreCallback(key, fn, Apply(s, Draw(fn)));
    }

    method Unregister(key: nat, ghost s: Spec)
      requires Is(s)
      modifies shards
      ensures Is(Apply(s, Op.Unregister(key)))
    {
      shards[key % SHARDS] := shards[key % SHARDS] - {key};
    }

    method Invoke(key: nat, ghost s: Spec)
      requires Is(s)
      modifies this`ran, shards
      ensures Is(Apply(s, Op.Invoke(key)))
    {
      var shard := key % SHARDS;
      if key !in shards[shard] { return; }
      var fn := shards[shard][key];
      shards[shard] := shards[shard] - {key};
      ran := ran + [(key, fn)];
    }

    method Pending(key: nat, ghost s: Spec) returns (r: bool)
      requires Is(s)
      ensures r <==> key in s.pending
    {
      r := key in shards[key % SHARDS];
    }
  }

  // ---- Every run

  predicate HasRun(s: Spec, key: nat) { exists j :: 0 <= j < |s.ran| && s.ran[j].0 == key }

  lemma HasRunStep(s: Spec, op: Op, key: nat)
    ensures HasRun(Apply(s, op), key) <==> HasRun(s, key) || (op == Invoke(key) && key in s.pending)
  {
    var after := Apply(s, op);
    if HasRun(s, key) {
      var j :| 0 <= j < |s.ran| && s.ran[j].0 == key;
      assert after.ran[j].0 == key;
    }
    if op == Invoke(key) && key in s.pending {
      assert after.ran[|s.ran|].0 == key;
    }
  }

  // The key counter never goes back.
  lemma {:induction false} KeysOnlyGrow(ops: seq<Op>, i: nat)
    requires i <= |ops|
    ensures Run(ops[..i]).nextKey <= Run(ops).nextKey
  {
    if i < |ops| {
      assert ops[..|ops| - 1][..i] == ops[..i];
      KeysOnlyGrow(ops[..|ops| - 1], i);
    } else {
      assert ops[..i] == ops;
    }
  }

  // The key drawn by operation i.
  function KeyOf(ops: seq<Op>, i: nat): nat
    requires i < |ops| && ops[i].Draw?
  {
    Run(ops[..i]).nextKey + 1
  }

  /** Registrations draw distinct keys, later ones larger. */
  lemma KeysAreFresh(ops: seq<Op>, i: nat, j: nat)
    requires i < j < |ops| && ops[i].Draw? && ops[j].Draw?
    ensures 0 < KeyOf(ops, i) < KeyOf(ops, j)
  {
    assert ops[..j][..i + 1] == ops[..i + 1] && ops[..i + 1][..i] == ops[..i];
    KeysOnlyGrow(ops[..j], i + 1);
  }

  // A key is drawn, then pending, then gone; and it comes from the counter.
  lemma {:induction false} KeysMoveOn(ops: seq<Op>, key: nat)
    ensures key in Run(ops).drawn ==> key !in Run(ops).pending && !HasRun(Run(ops), key)
    ensures key in Run(ops).pending ==> !HasRun(Run(ops), key)
    ensures key in Run(ops).drawn || key in Run(ops).pending || HasRun(Run(ops), key) ==>
              0 < key <= Run(ops).nextKey
  {
    if ops != [] {
      KeysMoveOn(ops[..|ops| - 1], key);
      HasRunStep(Run(ops[..|ops| - 1]), ops[|ops| - 1], key);
    }
  }

  // A key from the counter that is not drawn stays so.
  lemma {:induction false} NotDrawnAgain(ops: seq<Op>, i: nat, key: nat)
    requires i <= |ops| && key <= Run(ops[..i]).nextKey && key !in Run(ops[..i]).drawn
    ensures key !in Run(ops).drawn
  {
    if i < |ops| {
      var earlier := ops[..|ops| - 1];
      assert earlier[..i] == ops[..i];
      NotDrawnAgain(earlier, i, key);
      KeysOnlyGrow(earlier, i);
    } else {
      assert ops[..i] == ops;
    }
  }

  // Operation i stores the callback of key.
  predicate Stored(ops: seq<Op>, i: nat, key: nat) {
    i < |ops| && ops[i] == Store(key) && key in Run(ops[..i]).drawn
  }

  predicate Ends(op: Op, key: nat) {
    (op.Unregister? || op.Invoke?) && op.key == key
  }

  predicate EndedBetween(ops: seq<Op>, from: nat, key: nat) {
    exists j :: from <= j < |ops| && Ends(ops[j], key)
  }

  lemma EndedStep(ops: seq<Op>, from: nat, key: nat)
    requires from < |ops|
    ensures EndedBetween(ops, from, key) <==> EndedBetween(ops[..|ops| - 1], from, key) || Ends(ops[|ops| - 1], key)
  {
    var earlier := ops[..|ops| - 1];
    if EndedBetween(earlier, from, key) {
      var j :| from <= j < |earlier| && Ends(earlier[j], key);
      assert Ends(ops[j], key);
    }
    if EndedBetween(ops, from, key) && !Ends(ops[|ops| - 1], key) {
      var j :| from <= j < |ops| && Ends(ops[j], key);
      assert Ends(earlier[j], key);
    }
  }

  /** A registered key is pending exactly until it is first invoked or unregistered, with the
      callback it was registered with. */
  lemma {:induction false} PendingUntilEnded(ops: seq<Op>, i: nat, key: nat)
    requires Stored(ops, i, key)
    ensures key in Run(ops).pending <==> !EndedBetween(ops, i + 1, key)
    ensures key in Run(ops).pending ==> Run(ops).pending[key] == Run(ops[..i]).drawn[key]
    ensures key !in Run(ops).drawn
  {
    var last := |ops| - 1;
    var earlier := ops[..last];
    KeysMoveOn(ops[..i], key);
    assert ops[..i + 1][..i] == ops[..i];
    NotDrawnAgain(ops, i + 1, key);
    if i < last {
      assert earlier[..i] == ops[..i];
      PendingUntilEnded(earlier, i, key);
      EndedStep(ops, i + 1, key);
    }
  }

  /** Every callback runs at most once. */
  lemma {:induction false} RunsAtMostOnce(ops: seq<Op>)
    ensures forall j, k :: 0 <= j < k < |Run(ops).ran| ==> Run(ops).ran[j].0 != Run(ops).ran[k].0
  {
    if ops != [] {
      var before, op := Run(ops[..|ops| - 1]), ops[|ops| - 1];
      RunsAtMostOnce(ops[..|ops| - 1]);
      if op.Invoke? && op.key in before.pending {
        KeysMoveOn(ops[..|ops| - 1], op.key);
        forall j | 0 <= j < |before.ran| ensures before.ran[j].0 != op.key {
        }
      }
    }
  }

  /** Whatever becomes of a registration, the callback that is kept under its key, and the one that
      is run for it, is the one that was registered. */
  lemma {:induction false} OwnCallback(ops: seq<Op>, d: nat)
    requires d < |ops| && ops[d].Draw?
    ensures var s, key := Run(ops), KeyOf(ops, d);
            && (key in s.drawn ==> s.drawn[key] == ops[d].fn)
            && (key in s.pending ==> s.pending[key] == ops[d].fn)
            && (forall j :: 0 <= j < |s.ran| && s.ran[j].0 == key ==> s.ran[j].1 == ops[d].fn)
  {
    var last := |ops| - 1;
    var earlier := ops[..last];
    var key := KeyOf(ops, d);
    KeysMoveOn(earlier, key);
    if d == last {
      forall j | 0 <= j < |Run(earlier).ran| ensures Run(earlier).ran[j].0 != key {
      }
    } else {
      assert earlier[..d] == ops[..d];
      OwnCallback(earlier, d);
      if ops[last].Draw? { KeysAreFresh(ops, d, last); }
    }
  }

  // The first operation that ends the key, at or after from.
  predicate FirstEnd(ops: seq<Op>, from: nat, key: nat, j: nat) {
    from <= j < |ops| && Ends(ops[j], key) && !EndedBetween(ops[..j], from, key)
  }

  ghost predicate InvokedFirst(ops: seq<Op>, from: nat, key: nat) {
    exists j: nat :: FirstEnd(ops, from, key, j) && ops[j].Invoke?
  }

  lemma InvokedFirstStep(ops: seq<Op>, from: nat, key: nat)
    requires from < |ops|
    ensures var last := |ops| - 1;
            InvokedFirst(ops, from, key) <==>
              || InvokedFirst(ops[..last], from, key)
              || (ops[last] == Invoke(key) && !EndedBetween(ops[..last], from, key))
  {
    var last := |ops| - 1;
    var earlier := ops[..last];
    if InvokedFirst(earlier, from, key) {
      var j: nat :| FirstEnd(earlier, from, key, j) && earlier[j].Invoke?;
      assert earlier[..j] == ops[..j];
      assert FirstEnd(ops, from, key, j);
    }
    if ops[last] == Invoke(key) && !EndedBetween(earlier, from, key) {
      assert FirstEnd(ops, from, key, last);
    }
    if InvokedFirst(ops, from, key) {
      var j: nat :| FirstEnd(ops, from, key, j) && ops[j].Invoke?;
      if j < last {
        assert earlier[..j] == ops[..j];
        assert FirstEnd(earlier, from, key, j);
      }
    }
  }

  /** A registered callback runs exactly when the first operation that ends its key invokes it;
      unregistering first means it never runs. */
  lemma {:induction false} RunsIfInvokedFirst(ops: seq<Op>, i: nat, key: nat)
    requires Stored(ops, i, key)
    ensures HasRun(Run(ops), key) <==> InvokedFirst(ops, i + 1, key)
  {
    var last := |ops| - 1;
    var earlier := ops[..last];
    HasRunStep(Run(earlier), ops[last], key);
    if i == last {
      KeysMoveOn(earlier, key);
    } else {
      assert earlier[..i] == ops[..i];
      RunsIfInvokedFirst(earlier, i, key);
      PendingUntilEnded(earlier, i, key);
      InvokedFirstStep(ops, i + 1, key);
    }
  }
}
