/**
 Versioned memories: a current row that is overwritten, and an archive of every version before
 it. Together they are an append-only list, whatever transactions interleave, so a pinned
 version always reads as it did.
 */
module Memory {
  import opened Results

  datatype Doc = Doc(title: string, tags: string, description: string, content: string, checksum: string)

  datatype Row = Row(owner: nat, doc: Doc, public: bool, active: bool, revision: nat)

  /** A room entry, pinned to one revision of one memory. */
  datatype Entry = Entry(author: nat, memory: nat, revision: nat)

  datatype Library = Library(memories: seq<Row>, archive: map<(nat, nat), Doc>, entries: seq<Entry>)

  // -- statements --

  function Insert(l: Library, owner: nat, doc: Doc): Library {
    l.(memories := l.memories + [Row(owner, doc, false, true, 1)])
  }

  predicate OwnedActive(l: Library, m: nat, bot: nat) {
    m < |l.memories| && l.memories[m].owner == bot && l.memories[m].active
  }

  /** Snapshots the current row; its primary key archives every version at most once. */
  function ArchiveRevision(l: Library, m: nat): Result<Library> {
    if m >= |l.memories| then Ok(l)
    else if (m, l.memories[m].revision) in l.archive then Err(TransactionAborted)
    else Ok(l.(archive := l.archive[(m, l.memories[m].revision) := l.memories[m].doc]))
  }

  /** Overwrites the content and bumps the revision by one. */
  function UpdateContent(l: Library, m: nat, doc: Doc): Result<Library> {
    if m >= |l.memories| then Err(NotFound)
    else Ok(l.(memories := l.memories[m := l.memories[m].(doc := doc, revision := l.memories[m].revision + 1)]))
  }

  function FindRevision(l: Library, m: nat, revision: nat): Option<Doc> {
    if (m, revision) in l.archive then Some(l.archive[(m, revision)]) else None
  }

  /** The pinned version, from the row while it is current and from the archive afterwards. */
  function ReadVersion(l: Library, m: nat, revision: nat): Option<Doc> {
    if m >= |l.memories| then None
    else if revision == l.memories[m].revision then Some(l.memories[m].doc)
    else FindRevision(l, m, revision)
  }

  /** What an entry shows: its author's own memory always, another's only while active and public. */
  function Expand(l: Library, e: Entry): Option<Doc> {
    if e.memory >= |l.memories| then None
    else
      var k := l.memories[e.memory];
      if k.owner == e.author || (k.active && k.public) then ReadVersion(l, e.memory, e.revision) else None
  }

  /** The whole update transaction, run alone. */
  function Push(l: Library, bot: nat, m: nat, doc: Doc): Result<Library> {
    var _ :- Need(OwnedActive(l, m, bot), NotFound);
    var archived :- ArchiveRevision(l, m);
    UpdateContent(archived, m, doc)
  }

  // -- interleaving --

  datatype Relabel = Share | Unshare | Delete

  /**
   An update locks the row, archives it, then overwrites and commits. A post reads the current
   revision without a lock and inserts its entry later. Visibility changes check, then write.
   */
  datatype Txn =
    | Updating(bot: nat, memory: nat, doc: Doc, locked: bool, snapshot: Option<(nat, Doc)>)
    | Posting(bot: nat, memory: nat, pinned: Option<nat>)
    | Relabelling(bot: nat, memory: nat, change: Relabel, checked: bool)

  datatype World = World(lib: Library, txns: map<nat, Txn>)

  datatype Move =
    | Begin(id: nat, txn: Txn)
    | Advance(id: nat)
    | Abort(id: nat)
    | Create(owner: nat, doc: Doc)

  predicate Holds(t: Txn, m: nat) {
    t.Updating? && t.memory == m && t.locked
  }

  predicate RowFree(w: World, id: nat, m: nat) {
    forall j :: j in w.txns && j != id ==> !Holds(w.txns[j], m)
  }

  function Put(w: World, id: nat, t: Txn): World {
    w.(txns := w.txns[id := t])
  }

  function Finish(w: World, id: nat, l: Library): World {
    World(l, w.txns - {id})
  }

  function AdvanceUpdate(w: World, id: nat, t: Txn): World
    requires t.Updating?
  {
    var l, m := w.lib, t.memory;
    if !t.locked then
      if !RowFree(w, id, m) then w
      else if !OwnedActive(l, m, t.bot) then Finish(w, id, l)
      else Put(w, id, t.(locked := true))
    else if m >= |l.memories| then Finish(w, id, l)
    else if t.snapshot.None? then Put(w, id, t.(snapshot := Some((l.memories[m].revision, l.memories[m].doc))))
    else if (m, t.snapshot.value.0) in l.archive then Finish(w, id, l)
    else
      Finish(w, id, l.(archive := l.archive[(m, t.snapshot.value.0) := t.snapshot.value.1],
                       memories := l.memories[m := l.memories[m].(doc := t.doc, revision := l.memories[m].revision + 1)]))
  }

  function AdvancePost(w: World, id: nat, t: Txn): World
    requires t.Posting?
  {
    var l, m := w.lib, t.memory;
    match t.pinned
    case None =>
      if m < |l.memories| && l.memories[m].active && (l.memories[m].owner == t.bot || l.memories[m].public)
      then Put(w, id, t.(pinned := Some(l.memories[m].revision))) else Finish(w, id, l)
    case Some(revision) => Finish(w, id, l.(entries := l.entries + [Entry(t.bot, m, revision)]))
  }

  function AdvanceRelabel(w: World, id: nat, t: Txn): World
    requires t.Relabelling?
  {
    var l, m := w.lib, t.memory;
    if !t.checked then
      if OwnedActive(l, m, t.bot) then Put(w, id, t.(checked := true)) else Finish(w, id, l)
    else if !RowFree(w, id, m) then w
    else if m >= |l.memories| then Finish(w, id, l)
    else
      var k := l.memories[m];
      var k' := match t.change case Share => k.(public := true) case Unshare => k.(public := false) case Delete => k.(active := false);
      Finish(w, id, l.(memories := l.memories[m := k']))
  }

  predicate Fresh(t: Txn) {
    match t
    case Updating(_, _, _, locked, snapshot) => !locked && snapshot.None?
    case Posting(_, _, pinned) => pinned.None?
    case Relabelling(_, _, _, checked) => !checked
  }

  function Step(w: World, move: Move): World {
    match move
    case Begin(id, txn) => if id !in w.txns && Fresh(txn) then Put(w, id, txn) else w
    case Abort(id) => Finish(w, id, w.lib)
    case Create(owner, doc) => w.(lib := Insert(w.lib, owner, doc))
    case Advance(id) =>
      if id !in w.txns then w
      else match w.txns[id]
        case Updating(_, _, _, _, _) => AdvanceUpdate(w, id, w.txns[id])
        case Posting(_, _, _) => AdvancePost(w, id, w.txns[id])
        case Relabelling(_, _, _, _) => AdvanceRelabel(w, id, w.txns[id])
  }

  function Run(w: World, moves: seq<Move>): World {
    if moves == [] then w else Step(Run(w, moves[..|moves| - 1]), moves[|moves| - 1])
  }

  const NOTHING := World(Library([], map[], []), map[])

  // -- the list it refines --

  /** The archive holds exactly revisions 1 to r - 1, and pins name versions that exist. */
  ghost predicate Chained(l: Library) {
    && (forall m :: 0 <= m < |l.memories| ==> l.memories[m].revision >= 1)
    && (forall k: (nat, nat) :: k in l.archive <==> k.0 < |l.memories| && 1 <= k.1 < l.memories[k.0].revision)
    && (forall i :: 0 <= i < |l.entries| ==>
          l.entries[i].memory < |l.memories| && 1 <= l.entries[i].revision <= l.memories[l.entries[i].memory].revision)
  }

  /** Every version of a memory, oldest first. */
  ghost function Versions(l: Library, m: nat): seq<Doc>
    requires Chained(l) && m < |l.memories|
  {
    seq(l.memories[m].revision, i requires 0 <= i < l.memories[m].revision =>
      if i + 1 == l.memories[m].revision then l.memories[m].doc
      else assert (m, i + 1) in l.archive; l.archive[(m, i + 1)])
  }

  ghost predicate TxnOk(l: Library, t: Txn) {
    match t
    case Updating(bot, m, _, locked, snapshot) =>
      && (locked ==> OwnedActive(l, m, bot))
      && (snapshot.Some? ==> locked && snapshot.value == (l.memories[m].revision, l.memories[m].doc))
    case Posting(_, m, Some(revision)) => m < |l.memories| && 1 <= revision <= l.memories[m].revision
    case _ => true
  }

  ghost predicate Invariant(w: World) {
    && Chained(w.lib)
    && (forall j :: j in w.txns ==> TxnOk(w.lib, w.txns[j]))
    && (forall i, j, m :: i in w.txns && j in w.txns && i != j ==> !(Holds(w.txns[i], m) && Holds(w.txns[j], m)))
  }

  /** Versions are only appended, owners do not change, withdrawal is for good, entries stay. */
  ghost predicate Extends(l: Library, l': Library) {
    && |l.memories| <= |l'.memories| && l.entries <= l'.entries
    && (forall m :: 0 <= m < |l.memories| ==>
          && l.memories[m].owner == l'.memories[m].owner
          && (l'.memories[m].active ==> l.memories[m].active)
          && l.memories[m].revision <= l'.memories[m].revision
          && (l.memories[m].revision == l'.memories[m].revision ==> l'.memories[m].doc == l.memories[m].doc)
          && (l.memories[m].revision < l'.memories[m].revision ==> ReadVersion(l', m, l.memories[m].revision) == Some(l.memories[m].doc)))
    && (forall k :: k in l.archive ==> k in l'.archive && l'.archive[k] == l.archive[k])
  }

  lemma AppendOnly(l: Library, l': Library, m: nat)
    requires Chained(l) && Chained(l') && Extends(l, l') && m < |l.memories|
    ensures Versions(l, m) <= Versions(l', m)
  {
    var was, now := Versions(l, m), Versions(l', m);
    forall i | 0 <= i < |was| ensures now[i] == was[i] {
      if i + 1 < l.memories[m].revision {
        assert (m, i + 1) in l.archive;
      } else if i + 1 < l'.memories[m].revision {
        assert ReadVersion(l', m, i + 1) == Some(l.memories[m].doc);
      }
    }
  }

  lemma ExtendsIsTransitive(a: Library, b: Library, c: Library)
    requires Chained(a) && Chained(b) && Chained(c) && Extends(a, b) && Extends(b, c)
    ensures Extends(a, c)
  {
    forall m: nat | m < |a.memories| && a.memories[m].revision < c.memories[m].revision
      ensures ReadVersion(c, m, a.memories[m].revision) == Some(a.memories[m].doc)
    {
      if a.memories[m].revision < b.memories[m].revision {
        assert (m, a.memories[m].revision) in b.archive;
      }
    }
  }

  // -- every step --

  function Appended(l: Library, m: nat, doc: Doc): Library
    requires m < |l.memories|
  {
    l.(archive := l.archive[(m, l.memories[m].revision) := l.memories[m].doc],
       memories := l.memories[m := l.memories[m].(doc := doc, revision := l.memories[m].revision + 1)])
  }

  lemma AppendedIsChained(l: Library, m: nat, doc: Doc)
    requires Chained(l) && m < |l.memories|
    ensures (m, l.memories[m].revision) !in l.archive
    ensures Chained(Appended(l, m, doc)) && Extends(l, Appended(l, m, doc))
  {
  }

  lemma AppendedVersions(l: Library, m: nat, doc: Doc)
    requires Chained(l) && m < |l.memories| && Chained(Appended(l, m, doc))
    ensures Versions(Appended(l, m, doc), m) == Versions(l, m) + [doc]
    ensures forall n: nat :: n < |l.memories| && n != m ==> Versions(Appended(l, m, doc), n) == Versions(l, n)
  {
    var l' := Appended(l, m, doc);
    var was, now := Versions(l, m), Versions(l', m);
    forall i | 0 <= i < |now| ensures now[i] == (was + [doc])[i] {
      if i + 1 < l.memories[m].revision {
        assert (m, i + 1) in l.archive;
      }
    }
  }

  /** An update that commits appends exactly its document to exactly its memory. */
  lemma UpdateAppends(w: World, id: nat)
    requires Invariant(w) && id in w.txns && w.txns[id].Updating? && w.txns[id].snapshot.Some?
    ensures var t := w.txns[id];
            var l' := AdvanceUpdate(w, id, t).lib;
            && t.memory < |w.lib.memories| && l' == Appended(w.lib, t.memory, t.doc)
            && Chained(l') && Extends(w.lib, l')
            && Versions(l', t.memory) == Versions(w.lib, t.memory) + [t.doc]
            && (forall m: nat :: m < |w.lib.memories| && m != t.memory ==> Versions(l', m) == Versions(w.lib, m))
  {
    var t := w.txns[id];
    assert TxnOk(w.lib, t);
    AppendedIsChained(w.lib, t.memory, t.doc);
    AppendedVersions(w.lib, t.memory, t.doc);
  }

  lemma OthersStand(l: Library, l': Library, t: Txn)
    requires TxnOk(l, t) && |l.memories| <= |l'.memories|
    requires forall m :: 0 <= m < |l.memories| ==> l.memories[m].revision <= l'.memories[m].revision
    requires forall m :: 0 <= m < |l.memories| && Holds(t, m) ==> l'.memories[m] == l.memories[m]
    ensures TxnOk(l', t)
  {
  }

  lemma UpdateStep(w: World, id: nat)
    requires Invariant(w) && id in w.txns && w.txns[id].Updating?
    ensures var w' := AdvanceUpdate(w, id, w.txns[id]);
            Invariant(w') && Extends(w.lib, w'.lib)
  {
    var t := w.txns[id];
    assert TxnOk(w.lib, t);
    var w' := AdvanceUpdate(w, id, t);
    if t.snapshot.Some? {
      UpdateAppends(w, id);
      forall j | j in w'.txns ensures TxnOk(w'.lib, w'.txns[j]) {
        OthersStand(w.lib, w'.lib, w.txns[j]);
      }
    }
  }

  lemma PostStep(w: World, id: nat)
    requires Invariant(w) && id in w.txns && w.txns[id].Posting?
    ensures var w' := AdvancePost(w, id, w.txns[id]);
            Invariant(w') && Extends(w.lib, w'.lib)
  {
    assert TxnOk(w.lib, w.txns[id]);
    var w' := AdvancePost(w, id, w.txns[id]);
    forall j | j in w'.txns && j != id ensures TxnOk(w'.lib, w'.txns[j]) {
      OthersStand(w.lib, w'.lib, w.txns[j]);
    }
  }

  lemma RelabelledIsChained(l: Library, m: nat, k: Row)
    requires Chained(l) && m < |l.memories|
    requires k.doc == l.memories[m].doc && k.revision == l.memories[m].revision && k.owner == l.memories[m].owner
    requires k.active ==> l.memories[m].active
    ensures Chained(l.(memories := l.memories[m := k])) && Extends(l, l.(memories := l.memories[m := k]))
  {
  }

  lemma RelabelStep(w: World, id: nat)
    requires Invariant(w) && id in w.txns && w.txns[id].Relabelling?
    ensures var w' := AdvanceRelabel(w, id, w.txns[id]);
            Invariant(w') && Extends(w.lib, w'.lib)
  {
    var w' := AdvanceRelabel(w, id, w.txns[id]);
    var m := w.txns[id].memory;
    if w'.lib != w.lib {
      RelabelledIsChained(w.lib, m, w'.lib.memories[m]);
      forall j | j in w'.txns ensures TxnOk(w'.lib, w'.txns[j]) {
        OthersStand(w.lib, w'.lib, w.txns[j]);
      }
    }
  }

  lemma StepKeeps(w: World, move: Move)
    requires Invariant(w)
    ensures Invariant(Step(w, move)) && Extends(w.lib, Step(w, move).lib)
  {
    match move
    case Begin(id, txn) =>
    case Abort(id) =>
    case Create(owner, doc) =>
      forall j | j in w.txns ensures TxnOk(Step(w, move).lib, w.txns[j]) {
        OthersStand(w.lib, Step(w, move).lib, w.txns[j]);
      }
    case Advance(id) =>
      if id in w.txns {
        match w.txns[id]
        case Updating(_, _, _, _, _) => UpdateStep(w, id);
        case Posting(_, _, _) => PostStep(w, id);
        case Relabelling(_, _, _, _) => RelabelStep(w, id);
      }
  }

  lemma {:induction false} EveryRunIsChained(moves: seq<Move>)
    ensures Invariant(Run(NOTHING, moves))
  {
    if moves != [] {
      EveryRunIsChained(moves[..|moves| - 1]);
      StepKeeps(Run(NOTHING, moves[..|moves| - 1]), moves[|moves| - 1]);
    }
  }

  lemma {:induction false} RunsExtend(moves: seq<Move>, n: nat)
    requires n <= |moves|
    ensures Extends(Run(NOTHING, moves[..n]).lib, Run(NOTHING, moves).lib)
  {
    if |moves| == n {
      assert moves[..n] == moves;
    } else {
      var init := moves[..|moves| - 1];
      assert init[..n] == moves[..n];
      RunsExtend(init, n);
      EveryRunIsChained(init);
      EveryRunIsChained(init[..n]);
      EveryRunIsChained(moves);
      StepKeeps(Run(NOTHING, init), moves[|moves| - 1]);
      ExtendsIsTransitive(Run(NOTHING, moves[..n]).lib, Run(NOTHING, init).lib, Run(NOTHING, moves).lib);
    }
  }

  // -- pins --

  /** Reading a version reads the list: exactly the revisions 1 to r exist. */
  lemma ReadsTheList(l: Library, m: nat, revision: nat)
    requires Chained(l) && m < |l.memories|
    ensures ReadVersion(l, m, revision)
            == if 1 <= revision <= |Versions(l, m)| then Some(Versions(l, m)[revision - 1]) else None
  {
    if revision != l.memories[m].revision {
      assert (m, revision) in l.archive <==> 1 <= revision < l.memories[m].revision;
    }
  }

  /**
   A pinned version reads the same forever. Its author keeps it through every later update and
   withdrawal of an own memory; anyone else sees that same content or nothing.
   */
  lemma PinnedReadsAreStable(moves: seq<Move>, n: nat, i: nat)
    requires n <= |moves| && i < |Run(NOTHING, moves[..n]).lib.entries|
    ensures var l, l' := Run(NOTHING, moves[..n]).lib, Run(NOTHING, moves).lib;
            var e := l.entries[i];
            && i < |l'.entries| && l'.entries[i] == e
            && ReadVersion(l, e.memory, e.revision).Some?
            && ReadVersion(l', e.memory, e.revision) == ReadVersion(l, e.memory, e.revision)
            && (Expand(l', e).Some? ==> Expand(l', e) == ReadVersion(l, e.memory, e.revision))
            && (e.memory < |l.memories| && l.memories[e.memory].owner == e.author ==> Expand(l', e).Some?)
  {
    RunsExtend(moves, n);
    EveryRunIsChained(moves[..n]);
    EveryRunIsChained(moves);
    var l, l' := Run(NOTHING, moves[..n]).lib, Run(NOTHING, moves).lib;
    var e := l.entries[i];
    AppendOnly(l, l', e.memory);
    ReadsTheList(l, e.memory, e.revision);
    ReadsTheList(l', e.memory, e.revision);
  }

  /** Reading row and archive in two statements, with anything in between, reads the same version. */
  lemma TwoStatementRead(moves: seq<Move>, n: nat, m: nat, revision: nat)
    requires n <= |moves| && m < |Run(NOTHING, moves[..n]).lib.memories|
    requires 1 <= revision <= Run(NOTHING, moves[..n]).lib.memories[m].revision
    ensures var l, l' := Run(NOTHING, moves[..n]).lib, Run(NOTHING, moves).lib;
            (if revision == l.memories[m].revision then Some(l.memories[m].doc) else FindRevision(l', m, revision))
            == ReadVersion(l, m, revision)
  {
    RunsExtend(moves, n);
    EveryRunIsChained(moves[..n]);
    assert revision < Run(NOTHING, moves[..n]).lib.memories[m].revision ==> (m, revision) in Run(NOTHING, moves[..n]).lib.archive;
  }

  /** Run alone, an update never meets its own archive row, and appends one version. */
  lemma PushAppends(l: Library, bot: nat, m: nat, doc: Doc)
    requires Chained(l)
    ensures Push(l, bot, m, doc).Ok? <==> OwnedActive(l, m, bot)
    ensures Push(l, bot, m, doc).Ok? ==>
              && Chained(Push(l, bot, m, doc).value)
              && Versions(Push(l, bot, m, doc).value, m) == Versions(l, m) + [doc]
  {
    if OwnedActive(l, m, bot) {
      AppendedIsChained(l, m, doc);
      AppendedVersions(l, m, doc);
    }
  }

  // -- the tables in place --

  class MemoryTables {
    var memories: seq<Row>
    var archive: map<(nat, nat), Doc>
    var entries: seq<Entry>

    function State(): Library
      reads this
    {
      Library(memories, archive, entries)
    }

    constructor ()
      ensures State() == NOTHING.lib
    {
      memories, archive, entries := [], map[], [];
    }

    method ArchiveKungfuRevision(m: nat) returns (failure: Option<Error>)
      requires m < |memories|
      modifies this`archive
      ensures failure.None? <==> (m, old(memories)[m].revision) !in old(archive)
      ensures archive == if failure.None? then old(archive)[(m, old(memories)[m].revision) := old(memories)[m].doc] else old(archive)
    {
      if (m, memories[m].revision) in archive {
        return Some(TransactionAborted);
      }
      archive := archive[(m, memories[m].revision) := memories[m].doc];
      failure := None;
    }

    /** Lock, archive, overwrite; the new version is the list's next element. */
    method PushUpdate(bot: nat, m: nat, doc: Doc) returns (failure: Option<Error>)
      requires Chained(State())
      modifies this`memories, this`archive
      ensures failure.None? <==> OwnedActive(old(State()), m, bot)
      ensures failure.Some? ==> State() == old(State())
      ensures failure.None? ==> Push(old(State()), bot, m, doc) == Ok(State()) && Chained(State())
      ensures failure.None? ==> Versions(State(), m) == old(Versions(State(), m)) + [doc]
    {
      PushAppends(State(), bot, m, doc);
      if m >= |memories| || memories[m].owner != bot || !memories[m].active {
        return Some(NotFound);
      }
      failure := ArchiveKungfuRevision(m);
      memories := memories[m := memories[m].(doc := doc, revision := memories[m].revision + 1)];
    }

    method FindKungfuRevision(m: nat, revision: nat) returns (found: Option<Doc>)
      requires Chained(State())
      ensures found.Some? <==> m < |memories| && 1 <= revision < memories[m].revision
      ensures found.Some? ==> found.value == Versions(State(), m)[revision - 1]
    {
      found := if (m, revision) in archive then Some(archive[(m, revision)]) else None;
    }
  }
}
