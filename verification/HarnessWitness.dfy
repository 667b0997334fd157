/**
 A task that every listing shows and nobody can claim: its contract names two live memories.
 Reached from an empty database.
 */
module HarnessWitness {
  import opened Results
  import opened Credits
  import opened Schema
  import opened TaskKernel
  import opened TaskStore
  import opened TaskQueries
  import opened EconomyRuns
  import opened EconomyHistory
  import Rows

  const TWO_INPUTS := Contract(10, 5, false, 1800, 7200, "", Everyone, [0, 1])

  const TWO_ACCOUNTS: seq<Op> := [Register] + [Register]
  const TWO_MEMORIES: seq<Op> := TWO_ACCOUNTS + [MemoryStep(Add(0))] + [MemoryStep(Add(0))]
  const PUBLISHED: seq<Op> := TWO_MEMORIES + [TaskStep(Create(0, TWO_INPUTS, 10))]
  const OPENED: seq<Op> := PUBLISHED + [TaskStep(Status(Some(0), 0, EventOpen))]

  lemma RegisterAdds(e: Economy)
    ensures Commit(e, Register).books.balances == e.books.balances + [66]
    ensures Commit(e, Register) == e.(books := Commit(e, Register).books)
  {
    var n := |e.books.balances|;
    var joined := e.books.(balances := e.books.balances + [0]);
    PostAppends(joined, n, OtherKind("grant_signup"), SIGNUP_GRANT, NoRef, true);
    assert (e.books.balances + [0])[n := 66] == e.books.balances + [66];
  }

  lemma AccountsOpen()
    ensures var e := Run(EMPTY, TWO_ACCOUNTS); e == EMPTY.(books := e.books) && e.books.balances == [66, 66]
  {
    var none: seq<Op> := [];
    assert none + [Register] == [Register];
    RunSplits(EMPTY, none, Register);
    RunSplits(EMPTY, [Register], Register);
    RegisterAdds(EMPTY);
    RegisterAdds(Run(EMPTY, [Register]));
  }

  lemma MemoriesAreAdded()
    ensures var e := Run(EMPTY, TWO_MEMORIES);
            e == EMPTY.(books := e.books, memories := [Memory(0, true, 1), Memory(0, true, 1)]) && e.books.balances == [66, 66]
  {
    AccountsOpen();
    RunSplits(EMPTY, TWO_ACCOUNTS, MemoryStep(Add(0)));
    RunSplits(EMPTY, TWO_ACCOUNTS + [MemoryStep(Add(0))], MemoryStep(Add(0)));
  }

  const OFFER := Task(0, {}, Paused, 10, 0, 0, 0, TWO_INPUTS, 1)

  lemma TaskIsCreated(e: Economy)
    requires e.tasks == [] && e.memories == [Memory(0, true, 1), Memory(0, true, 1)] && e.books.balances == [66, 66]
    ensures var e' := Commit(e, TaskStep(Create(0, TWO_INPUTS, 10)));
            && e'.tasks == [OFFER] && e'.memories == e.memories && |e'.books.balances| == 2
            && e'.claims == e.claims && e'.submissions == e.submissions
  {
    PostAppends(e.books, 0, TaskLock, -10, TaskRef(0), false);
    assert HarnessValid(e, 0, TWO_INPUTS.harness);
    assert ValidContract(TWO_INPUTS);
  }

  lemma TaskIsOpened(e: Economy)
    requires e.tasks == [OFFER] && e.memories == [Memory(0, true, 1), Memory(0, true, 1)]
    ensures Commit(e, TaskStep(Status(Some(0), 0, EventOpen))) == e.(tasks := [OFFER.(status := Open)])
  {
    assert HarnessValid(e, 0, TWO_INPUTS.harness);
  }

  lemma OfferStands()
    ensures var e := Run(EMPTY, OPENED);
            && e.tasks == [OFFER.(status := Open)] && e.memories == [Memory(0, true, 1), Memory(0, true, 1)]
            && |e.books.balances| == 2 && e.claims == [] && e.submissions == []
  {
    MemoriesAreAdded();
    RunSplits(EMPTY, TWO_MEMORIES, TaskStep(Create(0, TWO_INPUTS, 10)));
    TaskIsCreated(Run(EMPTY, TWO_MEMORIES));
    RunSplits(EMPTY, PUBLISHED, TaskStep(Status(Some(0), 0, EventOpen)));
    TaskIsOpened(Run(EMPTY, PUBLISHED));
  }

  lemma BothMemoriesResolve(e: Economy)
    requires e.tasks == [OFFER.(status := Open)] && e.memories == [Memory(0, true, 1), Memory(0, true, 1)]
    ensures |PinsOf(e, 0)| == 2
  {
    var refs := TWO_INPUTS.harness;
    assert refs[..1] == [0] && refs[..1][..0] == [];
    assert |ResolveHarness(e, 0, [])| == 0;
    assert |ResolveHarness(e, 0, refs[..1])| == 1;
  }

  /** The open task is listed for agent 1 at every moment, and every claim on it fails. */
  lemma ListedButUnclaimable(now: int)
    ensures var e := Run(EMPTY, OPENED);
            |e.tasks| == 1 && Listed(e, 0, 1, now) && !HoldsLiveClaim(e, 0, 1, now) && ClaimTask(e, 1, 0, now).Err?
  {
    OfferStands();
    EveryRunIsSound(OPENED);
    var e := Run(EMPTY, OPENED);
    BothMemoriesResolve(e);
    assert Rows.Sum(e.submissions, RejectedEventsInWindow(0, 1, now - REJECTION_WINDOW)) == 0;
    ListedIsClaimable(e, 0, 1, now);
  }
}
