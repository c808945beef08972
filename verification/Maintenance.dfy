/** What a maintenance run achieves, over every history: which pins it removes and which reports it archives. */
module Maintenance {
  import opened Market
  import opened Store
  import opened StoreSafety

  /** The pinned report is where the pin says and nothing else stands under its identifier. */
  ghost predicate Sound(s: Files, pin: Pin) {
    var report := EmbeddedReport(s, pin.generation, pin.acquisition);
    report.Some? && OnlyReport(s, pin.acquisition, report.value)
  }

  /** The run can archive the pinned report and can remove the pin. */
  ghost predicate Settles(s: Files, pin: Pin, refused: set<string>, held: set<string>) {
    (pin.acquisition in s.archive || pin.acquisition !in refused) && pin.generation !in held
  }

  ghost predicate PinNames(pins: seq<Pin>, acquisition: string) {
    exists i :: 0 <= i < |pins| && pins[i].acquisition == acquisition
  }

  lemma {:induction false} PinNamesOneMore(pins: seq<Pin>, acquisition: string)
    requires pins != []
    ensures PinNames(pins, acquisition) <==> PinNames(pins[..|pins| - 1], acquisition) || pins[|pins| - 1].acquisition == acquisition
  {
    var shorter := pins[..|pins| - 1];
    assert forall i :: 0 <= i < |shorter| ==> shorter[i] == pins[i];
  }

  /** Retrying archives exactly the reports that may be archived. */
  lemma {:induction false} RetriesArchive(s: Files, pins: seq<Pin>, refused: set<string>, held: set<string>, acquisition: string)
    requires forall i :: 0 <= i < |pins| ==> Sound(s, pins[i])
    ensures acquisition in RetryPins(s, pins, refused, held).archive <==>
            acquisition in s.archive || (acquisition !in refused && PinNames(pins, acquisition))
  {
    if pins != [] {
      var n := |pins| - 1;
      var before, pin := RetryPins(s, pins[..n], refused, held), pins[n];
      RetriesArchive(s, pins[..n], refused, held, acquisition);
      PinNamesOneMore(pins, acquisition);
      TendingLeavesGenerations(s, pins[..n], refused, held);
      assert Sound(s, pin);
      RetriesKeepOnly(s, pins[..n], refused, held, pin.acquisition, EmbeddedReport(s, pin.generation, pin.acquisition).value);
    }
  }

  lemma {:induction false} WithoutPinExactly(pins: seq<Pin>, pin: Pin, p: Pin)
    ensures p in WithoutPin(pins, pin) <==> p in pins && p != pin
  {
    if pins != [] {
      WithoutPinExactly(pins[..|pins| - 1], pin, p);
      assert pins == pins[..|pins| - 1] + [pins[|pins| - 1]];
    }
  }

  lemma {:induction false} RetriesUnpin(s: Files, pins: seq<Pin>, refused: set<string>, held: set<string>, p: Pin)
    requires forall i :: 0 <= i < |pins| ==> Sound(s, pins[i])
    ensures p in RetryPins(s, pins, refused, held).pins <==> p in s.pins && !(p in pins && Settles(s, p, refused, held))
  {
    if pins != [] {
      var n := |pins| - 1;
      var before, pin := RetryPins(s, pins[..n], refused, held), pins[n];
      RetriesUnpin(s, pins[..n], refused, held, p);
      RetriesArchive(s, pins[..n], refused, held, pin.acquisition);
      TendingLeavesGenerations(s, pins[..n], refused, held);
      assert Sound(s, pin);
      RetriesKeepOnly(s, pins[..n], refused, held, pin.acquisition, EmbeddedReport(s, pin.generation, pin.acquisition).value);
      WithoutPinExactly(before.pins, pin, p);
      assert p in pins <==> p in pins[..n] || p == pin by {
        assert pins == pins[..n] + [pin];
      }
    }
  }

  // ----- over histories

  /** The acquisition was committed by one of the first n operations. */
  ghost predicate CommittedBefore(ops: seq<Op>, n: nat, acquisition: string)
    requires n <= |ops|
  {
    exists i :: 0 <= i < n && Committed(ops[i]) && ops[i].manifest.acquisition == acquisition
  }

  ghost predicate PinsSound(ops: seq<Op>, s: Files, n: nat)
    requires n <= |ops|
  {
    forall p :: p in s.pins ==> Sound(s, p) && CommittedBefore(ops, n, p.acquisition)
  }

  /** A pin that was there stays sound unless it goes. */
  lemma {:induction false} StaysSound(s: Files, op: Op, p: Pin)
    requires Allowed(s, op) && Intact(s) && p in s.pins && p in Apply(s, op).pins && Sound(s, p) && !Names(op, p.acquisition)
    ensures Sound(Apply(s, op), p)
  {
    var after := Apply(s, op);
    var m := EmbeddedReport(s, p.generation, p.acquisition).value;
    OperationKeepsOnly(s, op, p.acquisition, m);
    OperationIsAtomic(s, op);
    var i :| 0 <= i < |after.pins| && after.pins[i] == p;
    assert EmbeddedReport(after, after.pins[i].generation, after.pins[i].acquisition).Some?;
    DirectoriesAreImmutable(s, op, p.generation);
  }

  /** The only pin an operation can add is that of its own commit. */
  lemma {:induction false} NewPin(s: Files, op: Op, p: Pin)
    requires Allowed(s, op) && p in Apply(s, op).pins && p !in s.pins
    ensures Committed(op) && p == Pin(op.id, op.manifest.acquisition) && op.pinWritable
  {
    if op.Tend? {
      RetriesAddNoPin(s, s.pins, op.refused, op.held, p);
    }
  }

  lemma {:induction false} RetriesAddNoPin(s: Files, pins: seq<Pin>, refused: set<string>, held: set<string>, p: Pin)
    ensures p in RetryPins(s, pins, refused, held).pins ==> p in s.pins
  {
    if pins != [] {
      var n := |pins| - 1;
      RetriesAddNoPin(s, pins[..n], refused, held, p);
      WithoutPinExactly(RetryPins(s, pins[..n], refused, held).pins, pins[n], p);
    }
  }

  lemma {:induction false} FreshCommitIsUnused(ops: seq<Op>, states: seq<Files>, n: nat)
    requires History(ops, states) && FreshAcquisitions(ops) && n < |ops| && Committed(ops[n])
    ensures Unused(states[n], ops[n].manifest.acquisition)
  {
    forall i | 0 <= i < n
      ensures !Names(ops[i], ops[n].manifest.acquisition)
    {
      assert !SameAcquisition(ops[i], ops[n]);
    }
    UnusedIdentifier(ops, states, n, ops[n].manifest.acquisition);
  }

  lemma {:induction false} OnePinSound(ops: seq<Op>, states: seq<Files>, n: nat, p: Pin)
    requires History(ops, states) && FreshAcquisitions(ops) && n < |ops|
    requires PinsSound(ops, states[n], n) && p in states[n + 1].pins
    ensures Sound(states[n + 1], p) && CommittedBefore(ops, n + 1, p.acquisition)
  {
    assert Happens(ops, states, n);
    CurrentIsLastCommit(ops, states, n);
    CurrentIsLastCommit(ops, states, n + 1);
    if p in states[n].pins {
      var i :| 0 <= i < n && Committed(ops[i]) && ops[i].manifest.acquisition == p.acquisition;
      assert !SameAcquisition(ops[i], ops[n]);
      StaysSound(states[n], ops[n], p);
    } else {
      NewPin(states[n], ops[n], p);
      FreshCommitIsUnused(ops, states, n);
      CommitKeepsItsReport(states[n], ops[n]);
      var i :| 0 <= i < |states[n + 1].pins| && states[n + 1].pins[i] == p;
      assert EmbeddedReport(states[n + 1], states[n + 1].pins[i].generation, states[n + 1].pins[i].acquisition).Some?;
    }
  }

  lemma {:induction false} HistoryKeepsPinsSound(ops: seq<Op>, states: seq<Files>, n: nat)
    requires History(ops, states) && FreshAcquisitions(ops) && n <= |ops|
    ensures PinsSound(ops, states[n], n)
  {
    if n > 0 {
      HistoryKeepsPinsSound(ops, states, n - 1);
      forall p | p in states[n].pins
        ensures Sound(states[n], p) && CommittedBefore(ops, n, p.acquisition)
      {
        OnePinSound(ops, states, n - 1, p);
      }
    }
  }

  /** A maintenance run removes a pin exactly when it can archive the pinned report, or it was archived already, and the
      pin itself can be removed; and a removed pin's report is in the archive. So with nothing refused and nothing
      held no pin is left. */
  lemma {:induction false} MaintenanceUnpinsExactly(ops: seq<Op>, states: seq<Files>, n: nat, p: Pin)
    requires History(ops, states) && FreshAcquisitions(ops) && n < |ops| && ops[n].Tend? && p in states[n].pins
    ensures p !in states[n + 1].pins <==>
            (p.acquisition in states[n].archive || p.acquisition !in ops[n].refused) && p.generation !in ops[n].held
    ensures p !in states[n + 1].pins ==>
              p.acquisition in states[n + 1].archive
              && EmbeddedReport(states[n], p.generation, p.acquisition) == Some(states[n + 1].archive[p.acquisition])
  {
    var s := states[n];
    HistoryKeepsPinsSound(ops, states, n);
    assert Happens(ops, states, n);
    assert forall i :: 0 <= i < |s.pins| ==> s.pins[i] in s.pins;
    RetriesUnpin(s, s.pins, ops[n].refused, ops[n].held, p);
    RetriesArchive(s, s.pins, ops[n].refused, ops[n].held, p.acquisition);
    var i :| 0 <= i < |s.pins| && s.pins[i] == p;
    assert PinNames(s.pins, p.acquisition);
    assert Sound(s, p);
    RetriesKeepOnly(s, s.pins, ops[n].refused, ops[n].held, p.acquisition, EmbeddedReport(s, p.generation, p.acquisition).value);
  }
}
