/**
 Freezing the memory revisions a claim is bound to: one INSERT whose placeholder numbers are
 computed apart from its arguments.
 */
module HarnessPins {
  import opened Results

  datatype Pin = Pin(memory: int, revision: int)

  /** The claim id first, then two arguments a pin. */
  function Arguments(claim: int, pins: seq<Pin>): seq<int> {
    if pins == [] then [claim]
    else Arguments(claim, pins[..|pins| - 1]) + [pins[|pins| - 1].memory, pins[|pins| - 1].revision]
  }

  /** The two placeholder numbers written for the i-th pin. */
  function Placeholder(i: nat): (nat, nat) {
    (i * 3 + 2, i * 3 + 3)
  }

  /** What a placeholder number stands for; numbers start at 1. */
  function Bound(args: seq<int>, number: nat): Option<int> {
    if 1 <= number <= |args| then Some(args[number - 1]) else None
  }

  /** The statement can run: every placeholder names an argument that was passed. */
  predicate Runs(claim: int, pins: seq<Pin>) {
    forall i: nat :: i < |pins| ==>
      Bound(Arguments(claim, pins), Placeholder(i).0).Some? && Bound(Arguments(claim, pins), Placeholder(i).1).Some?
  }

  /** The rows the statement inserts, or its failure; an empty set writes nothing. */
  function InsertRows(claim: int, pins: seq<Pin>): Result<seq<Pin>> {
    if pins == [] then Ok([])
    else if !Runs(claim, pins) then Err(TransactionAborted)
    else
      var args := Arguments(claim, pins);
      Ok(seq(|pins|, i requires 0 <= i < |pins| =>
           Pin(Bound(args, Placeholder(i).0).value, Bound(args, Placeholder(i).1).value)))
  }

  lemma {:induction false} ArgumentCount(claim: int, pins: seq<Pin>)
    ensures |Arguments(claim, pins)| == 2 * |pins| + 1 && Arguments(claim, pins)[0] == claim
  {
    if pins != [] {
      ArgumentCount(claim, pins[..|pins| - 1]);
    }
  }

  /** The numbers line up for at most one pin, and for no more: a second pin makes the insert fail. */
  lemma LinesUpForOnePin(claim: int, pins: seq<Pin>)
    ensures Runs(claim, pins) <==> |pins| <= 1
    ensures Bound(Arguments(claim, pins), 1) == Some(claim)
    ensures |pins| == 1 ==>
              && Bound(Arguments(claim, pins), Placeholder(0).0) == Some(pins[0].memory)
              && Bound(Arguments(claim, pins), Placeholder(0).1) == Some(pins[0].revision)
  {
    ArgumentCount(claim, pins);
    if |pins| > 1 {
      assert Bound(Arguments(claim, pins), Placeholder(|pins| - 1).1).None?;
    } else if |pins| == 1 {
      assert Arguments(claim, []) == [claim];
      assert pins[..0] == [];
      assert Arguments(claim, pins) == [claim, pins[0].memory, pins[0].revision];
    }
  }

  /** At most one pin is inserted, as it is; more make the statement fail. */
  lemma InsertIsExact(claim: int, pins: seq<Pin>)
    ensures InsertRows(claim, pins) == if |pins| <= 1 then Ok(pins) else Err(TransactionAborted)
  {
    LinesUpForOnePin(claim, pins);
    if |pins| == 1 {
      assert InsertRows(claim, pins).value == [pins[0]] == pins;
    }
  }

  /** Builds placeholders and arguments in one loop, then runs the statement. */
  method InsertClaimHarnessRevisions(claim: int, pins: seq<Pin>) returns (rows: Result<seq<Pin>>)
    ensures rows == InsertRows(claim, pins)
    ensures rows.Ok? <==> |pins| <= 1
    ensures rows.Ok? ==> rows.value == pins
  {
    InsertIsExact(claim, pins);
    LinesUpForOnePin(claim, pins);
    if |pins| == 0 {
      return Ok([]);
    }
    var args := [claim];
    var values: seq<(nat, nat)> := [];
    for i := 0 to |pins|
      invariant args == Arguments(claim, pins[..i])
      invariant |values| == i && forall k: nat :: k < i ==> values[k] == Placeholder(k)
    {
      assert pins[..i + 1][..i] == pins[..i];
      var base := i * 3;
      values := values + [(base + 2, base + 3)];
      args := args + [pins[i].memory, pins[i].revision];
    }
    assert pins[..|pins|] == pins;
    if exists k :: 0 <= k < |values| && (Bound(args, values[k].0).None? || Bound(args, values[k].1).None?) {
      return Err(TransactionAborted);
    }
    assert Runs(claim, pins) by {
      forall i: nat | i < |pins| ensures Bound(args, Placeholder(i).0).Some? && Bound(args, Placeholder(i).1).Some? {
        assert values[i] == Placeholder(i);
      }
    }
    rows := Ok([Pin(Bound(args, values[0].0).value, Bound(args, values[0].1).value)]);
    assert rows.value == [pins[0]] == pins;
  }
}
