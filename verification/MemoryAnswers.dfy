/** Who reads, pins and changes a memory, read off its row, and what every interleaving keeps of it. */
module MemoryAnswers {
  import opened Results
  import opened Memory

  // -- reading --

  /** An entry shows its author's own memory always; another's while it is active and public, and not otherwise. */
  lemma ExpandExactly(l: Library, e: Entry)
    requires Chained(l)
    ensures Expand(l, e).Some? <==>
              && e.memory < |l.memories| && 1 <= e.revision <= l.memories[e.memory].revision
              && var k := l.memories[e.memory];
                 e.author == k.owner || (k.active && k.public)
    ensures Expand(l, e).Some? ==> Expand(l, e).value == Versions(l, e.memory)[e.revision - 1]
  {
    if e.memory < |l.memories| {
      ReadsTheList(l, e.memory, e.revision);
    }
  }

  /** A private memory shows itself to its owner alone, in every state. */
  lemma PrivateStaysPrivate(moves: seq<Move>, i: nat)
    requires var l := Run(NOTHING, moves).lib; i < |l.entries|
    ensures var l := Run(NOTHING, moves).lib;
            var e := l.entries[i];
            e.memory < |l.memories|
            && (Expand(l, e).Some? <==>
                  l.memories[e.memory].owner == e.author || (l.memories[e.memory].active && l.memories[e.memory].public))
  {
    EveryRunIsChained(moves);
    ExpandExactly(Run(NOTHING, moves).lib, Run(NOTHING, moves).lib.entries[i]);
  }

  // -- pinning --

  /** A post pins the current revision of a memory that is active and its author's own or public, and is refused any other. */
  lemma PostExactly(w: World, id: nat, bot: nat, m: nat)
    requires id in w.txns && w.txns[id] == Posting(bot, m, None)
    ensures var ok := m < |w.lib.memories| && w.lib.memories[m].active && (w.lib.memories[m].owner == bot || w.lib.memories[m].public);
            Step(w, Advance(id))
            == if ok then World(w.lib, w.txns[id := Posting(bot, m, Some(w.lib.memories[m].revision))])
               else World(w.lib, w.txns - {id})
  {
  }

  lemma PostCommits(w: World, id: nat, bot: nat, m: nat, revision: nat)
    requires id in w.txns && w.txns[id] == Posting(bot, m, Some(revision))
    ensures Step(w, Advance(id)) == World(w.lib.(entries := w.lib.entries + [Entry(bot, m, revision)]), w.txns - {id})
  {
  }

  // -- changing --

  /** A new memory is its creator's, private, active, at revision 1. */
  lemma CreateExactly(w: World, owner: nat, doc: Doc)
    ensures Step(w, Create(owner, doc))
            == w.(lib := w.lib.(memories := w.lib.memories + [Row(owner, doc, false, true, 1)]))
  {
  }

  /** Sharing, unsharing and withdrawing are checked against the owner, and then write their one column. */
  lemma RelabelExactly(w: World, id: nat, bot: nat, m: nat, change: Relabel)
    requires id in w.txns && m < |w.lib.memories|
    ensures w.txns[id] == Relabelling(bot, m, change, false) ==>
              Step(w, Advance(id))
              == if w.lib.memories[m].owner == bot && w.lib.memories[m].active
                 then World(w.lib, w.txns[id := Relabelling(bot, m, change, true)]) else World(w.lib, w.txns - {id})
    ensures w.txns[id] == Relabelling(bot, m, change, true) && RowFree(w, id, m) ==>
              var k := w.lib.memories[m];
              var written := Row(k.owner, k.doc, if change == Unshare then false else k.public || change == Share,
                                 k.active && change != Delete, k.revision);
              Step(w, Advance(id)) == World(w.lib.(memories := w.lib.memories[m := written]), w.txns - {id})
  {
    if change == Delete {
      assert w.lib.memories[m].(active := false) == Row(w.lib.memories[m].owner, w.lib.memories[m].doc, w.lib.memories[m].public, false, w.lib.memories[m].revision);
    }
  }

  // -- only owners, over every run --

  /** A visibility change past its check is its owner's. */
  ghost predicate Checked(w: World) {
    forall j :: j in w.txns && w.txns[j].Relabelling? && w.txns[j].checked ==>
                  w.txns[j].memory < |w.lib.memories| && w.lib.memories[w.txns[j].memory].owner == w.txns[j].bot
  }

  ghost predicate OwnersStay(l: Library, l': Library) {
    |l.memories| <= |l'.memories| && forall m :: 0 <= m < |l.memories| ==> l'.memories[m].owner == l.memories[m].owner
  }

  lemma StepKeepsOwners(w: World, move: Move)
    ensures OwnersStay(w.lib, Step(w, move).lib)
  {
  }

  lemma StepKeepsChecked(w: World, move: Move)
    requires Checked(w)
    ensures Checked(Step(w, move))
  {
    StepKeepsOwners(w, move);
    var w' := Step(w, move);
    forall j | j in w'.txns && w'.txns[j].Relabelling? && w'.txns[j].checked
      ensures w'.txns[j].memory < |w'.lib.memories| && w'.lib.memories[w'.txns[j].memory].owner == w'.txns[j].bot
    {
      if j in w.txns && w.txns[j] == w'.txns[j] {
        assert w.txns[j].memory < |w.lib.memories|;
      }
    }
  }

  lemma {:induction false} EveryRunIsChecked(moves: seq<Move>)
    ensures Checked(Run(NOTHING, moves))
  {
    if moves != [] {
      EveryRunIsChecked(moves[..|moves| - 1]);
      StepKeepsChecked(Run(NOTHING, moves[..|moves| - 1]), moves[|moves| - 1]);
    }
  }

  /** Whatever interleaves, the row of a memory changes only by a transaction of its owner. */
  lemma OnlyOwnersChange(moves: seq<Move>, move: Move, m: nat)
    requires var w := Run(NOTHING, moves);
             m < |w.lib.memories| && m < |Step(w, move).lib.memories| && Step(w, move).lib.memories[m] != w.lib.memories[m]
    ensures var w := Run(NOTHING, moves);
            move.Advance? && move.id in w.txns && w.txns[move.id].bot == w.lib.memories[m].owner
  {
    EveryRunIsChecked(moves);
    EveryRunIsChained(moves);
    var w := Run(NOTHING, moves);
    if move.Advance? && move.id in w.txns {
      assert TxnOk(w.lib, w.txns[move.id]);
    }
  }

  // -- a whole update --

  lemma RunNext(w: World, moves: seq<Move>, move: Move)
    ensures Run(w, moves + [move]) == Step(Run(w, moves), move)
  {
    assert (moves + [move])[..|moves|] == moves;
  }

  lemma RunFour(w: World, a: Move, b: Move, c: Move, d: Move)
    ensures Run(w, [a, b, c, d]) == Step(Step(Step(Step(w, a), b), c), d)
  {
    var none: seq<Move> := [];
    assert none + [a] == [a] && [a] + [b] == [a, b] && [a, b] + [c] == [a, b, c] && [a, b, c] + [d] == [a, b, c, d];
    RunNext(w, none, a);
    RunNext(w, [a], b);
    RunNext(w, [a, b], c);
    RunNext(w, [a, b, c], d);
  }

  /** An update that meets nobody commits: lock, archive and overwrite append its document, for the owner alone. */
  lemma UpdateRunsThrough(w: World, id: nat, bot: nat, m: nat, doc: Doc)
    requires Chained(w.lib) && id !in w.txns && RowFree(w, id, m)
    requires m < |w.lib.memories| && w.lib.memories[m].owner == bot && w.lib.memories[m].active
    ensures Run(w, [Begin(id, Updating(bot, m, doc, false, None)), Advance(id), Advance(id), Advance(id)])
            == World(Appended(w.lib, m, doc), w.txns)
  {
    var first := Begin(id, Updating(bot, m, doc, false, None));
    AppendedIsChained(w.lib, m, doc);
    RunFour(w, first, Advance(id), Advance(id), Advance(id));
    UpdateSteps(w, id, bot, m, doc);
  }

  lemma UpdateSteps(w: World, id: nat, bot: nat, m: nat, doc: Doc)
    requires id !in w.txns && RowFree(w, id, m)
    requires m < |w.lib.memories| && w.lib.memories[m].owner == bot && w.lib.memories[m].active
    requires (m, w.lib.memories[m].revision) !in w.lib.archive
    ensures var k := w.lib.memories[m];
            var begun := Put(w, id, Updating(bot, m, doc, false, None));
            var locked := Put(w, id, Updating(bot, m, doc, true, None));
            var copied := Put(w, id, Updating(bot, m, doc, true, Some((k.revision, k.doc))));
            && Step(w, Begin(id, Updating(bot, m, doc, false, None))) == begun
            && Step(begun, Advance(id)) == locked && Step(locked, Advance(id)) == copied
            && Step(copied, Advance(id)) == World(Appended(w.lib, m, doc), w.txns)
  {
    var k := w.lib.memories[m];
    var begun := Put(w, id, Updating(bot, m, doc, false, None));
    var locked := Put(w, id, Updating(bot, m, doc, true, None));
    var copied := Put(w, id, Updating(bot, m, doc, true, Some((k.revision, k.doc))));
    assert RowFree(begun, id, m);
    assert begun.txns[id := locked.txns[id]] == locked.txns;
    assert locked.txns[id := copied.txns[id]] == copied.txns;
    assert copied.txns - {id} == w.txns;
  }

  /** Anybody else's update, or one of a withdrawn memory, ends where it began. */
  lemma UpdateIsRefused(w: World, id: nat, bot: nat, m: nat, doc: Doc)
    requires id in w.txns && w.txns[id] == Updating(bot, m, doc, false, None) && RowFree(w, id, m)
    requires m < |w.lib.memories| ==> w.lib.memories[m].owner != bot || !w.lib.memories[m].active
    ensures Step(w, Advance(id)) == World(w.lib, w.txns - {id})
  {
  }
}
