/**
 The turn list: every open obligation of an account, projected from receipts, assignments and
 task claims, paged by a keyset cursor. Nothing is ever written here.
 */
module Turns {
  import opened Results
  import R = Rooms
  import opened Assignments
  import opened AssignmentLaws

  const PAGE: nat := 50

  /** The cursor components; rows of one branch have distinct ids. */
  datatype Key = Key(produced: int, branch: int, row: int)

  /** An active or ended task claim, as the projection sees it. */
  datatype Engagement = Engagement(agent: nat, live: bool, expiresAt: int, createdAt: int)

  // -- the projection --

  predicate InScope(scope: Option<nat>, thread: nat) {
    scope.None? || scope.value == thread
  }

  predicate ReplyDue(b: Board, i: int, account: nat, scope: Option<nat>) {
    && 0 <= i < |b.receipts|
    && b.receipts[i].account == account && b.receipts[i].state == Pending && InScope(scope, b.receipts[i].thread)
  }

  predicate DeliverDue(b: Board, i: int, account: nat, scope: Option<nat>, now: int) {
    && 0 <= i < |b.assigns|
    && b.assigns[i].assignee == account && b.assigns[i].state == Taken && InScope(scope, b.assigns[i].thread)
    && b.assigns[i].deliverDueAt.Some? && b.assigns[i].deliverDueAt.value > now
  }

  predicate JudgeDue(b: Board, i: int, account: nat, scope: Option<nat>, now: int) {
    && 0 <= i < |b.assigns| && i in b.deliveries
    && b.assigns[i].creator == account && b.assigns[i].state == Delivered && !b.assigns[i].forfeited
    && (b.assigns[i].thread, b.assigns[i].creator) in b.members
    && b.deliveries[i].judgeDueAt > now && InScope(scope, b.assigns[i].thread)
  }

  /** Task claims are no room facts: a scoped list never shows them. */
  predicate ClaimDue(claims: seq<Engagement>, i: int, account: nat, scope: Option<nat>, now: int) {
    0 <= i < |claims| && claims[i].agent == account && claims[i].live && claims[i].expiresAt > now && scope.None?
  }

  function ReplyKey(b: Board, i: int): Key {
    Key(if 0 <= i < |b.receipts| then b.receipts[i].createdAt else 0, 1, i)
  }

  function DeliverKey(b: Board, i: int): Key {
    Key(if 0 <= i < |b.assigns| then b.assigns[i].takenAt.GetOr(0) else 0, 2, i)
  }

  function JudgeKey(b: Board, i: int): Key {
    Key(if i in b.deliveries then b.deliveries[i].submittedAt else 0, 3, i)
  }

  function ClaimKey(claims: seq<Engagement>, i: int): Key {
    Key(if 0 <= i < |claims| then claims[i].createdAt else 0, 4, i)
  }

  /** The keys of the rows a branch selects. */
  function Picked(n: nat, selects: int -> bool, key: int -> Key): set<Key> {
    set i | 0 <= i < n && selects(i) :: key(i)
  }

  function ReplyRows(b: Board, account: nat, scope: Option<nat>): int -> bool {
    i => ReplyDue(b, i, account, scope)
  }

  function DeliverRows(b: Board, account: nat, scope: Option<nat>, now: int): int -> bool {
    i => DeliverDue(b, i, account, scope, now)
  }

  function JudgeRows(b: Board, account: nat, scope: Option<nat>, now: int): int -> bool {
    i => JudgeDue(b, i, account, scope, now)
  }

  function ClaimRows(claims: seq<Engagement>, account: nat, scope: Option<nat>, now: int): int -> bool {
    i => ClaimDue(claims, i, account, scope, now)
  }

  function ReplyKeys(b: Board): int -> Key {
    i => ReplyKey(b, i)
  }

  function DeliverKeys(b: Board): int -> Key {
    i => DeliverKey(b, i)
  }

  function JudgeKeys(b: Board): int -> Key {
    i => JudgeKey(b, i)
  }

  function ClaimKeys(claims: seq<Engagement>): int -> Key {
    i => ClaimKey(claims, i)
  }

  function TodoItems(b: Board, claims: seq<Engagement>, account: nat, scope: Option<nat>, now: int): set<Key> {
    Picked(|b.receipts|, ReplyRows(b, account, scope), ReplyKeys(b))
    + Picked(|b.assigns|, DeliverRows(b, account, scope, now), DeliverKeys(b))
    + Picked(|b.assigns|, JudgeRows(b, account, scope, now), JudgeKeys(b))
    + Picked(|claims|, ClaimRows(claims, account, scope, now), ClaimKeys(claims))
  }

  // -- what is listed can be done, and what can be done is listed --

  /** Row ids tell the keys of one branch apart. */
  lemma PickedHas(n: nat, selects: int -> bool, key: int -> Key, i: int)
    requires forall j :: key(j).row == j
    ensures key(i) in Picked(n, selects, key) <==> 0 <= i < n && selects(i)
  {
  }

  lemma PickedBranch(n: nat, selects: int -> bool, key: int -> Key, branch: int)
    requires forall j :: key(j).branch == branch
    ensures forall k :: k in Picked(n, selects, key) ==> k.branch == branch
  {
  }

  /** A key is listed exactly when the branch it names selects its row. */
  lemma Listed(b: Board, claims: seq<Engagement>, account: nat, scope: Option<nat>, now: int, i: int)
    ensures ReplyKey(b, i) in TodoItems(b, claims, account, scope, now) <==> ReplyDue(b, i, account, scope)
    ensures DeliverKey(b, i) in TodoItems(b, claims, account, scope, now) <==> DeliverDue(b, i, account, scope, now)
    ensures JudgeKey(b, i) in TodoItems(b, claims, account, scope, now) <==> JudgeDue(b, i, account, scope, now)
  {
    PickedBranch(|b.receipts|, ReplyRows(b, account, scope), ReplyKeys(b), 1);
    PickedBranch(|b.assigns|, DeliverRows(b, account, scope, now), DeliverKeys(b), 2);
    PickedBranch(|b.assigns|, JudgeRows(b, account, scope, now), JudgeKeys(b), 3);
    PickedBranch(|claims|, ClaimRows(claims, account, scope, now), ClaimKeys(claims), 4);
    PickedHas(|b.receipts|, ReplyRows(b, account, scope), ReplyKeys(b), i);
    PickedHas(|b.assigns|, DeliverRows(b, account, scope, now), DeliverKeys(b), i);
    PickedHas(|b.assigns|, JudgeRows(b, account, scope, now), JudgeKeys(b), i);
    assert ReplyKeys(b)(i) == ReplyKey(b, i) && DeliverKeys(b)(i) == DeliverKey(b, i) && JudgeKeys(b)(i) == JudgeKey(b, i);
  }

  lemma DeliverItemsAreDeliverable(b: Board, claims: seq<Engagement>, id: nat, bot: nat, payload: string, now: int)
    requires BoardOk(b) && id < |b.assigns|
    ensures DeliverKey(b, id) in TodoItems(b, claims, bot, None, now) <==> Submit(b, id, bot, payload, now).Ok?
    ensures Submit(b, id, bot, payload, now).Ok? <==> DropWork(b, id, bot, now).Ok?
  {
    Listed(b, claims, bot, None, now, id);
    assert RowOk(b, id, b.assigns[id]);
  }

  lemma JudgeItemsAreJudgeable(b: Board, claims: seq<Engagement>, id: nat, bot: nat, verdict: Verdict, now: int)
    requires BoardOk(b) && id < |b.assigns|
    ensures JudgeKey(b, id) in TodoItems(b, claims, bot, None, now) <==> Judge(b, id, bot, verdict, now).Ok?
  {
    Listed(b, claims, bot, None, now, id);
    assert RowOk(b, id, b.assigns[id]);
  }

  /** The creator's membership never hides an unforfeited judgment: losing it forfeits. */
  lemma MembershipHidesNothing(b: Board, id: nat, now: int)
    requires BoardOk(b) && id < |b.assigns| && b.assigns[id].state == Delivered && !b.assigns[id].forfeited
    requires id in b.deliveries && b.deliveries[id].judgeDueAt > now
    ensures JudgeDue(b, id, b.assigns[id].creator, None, now)
  {
    assert RowOk(b, id, b.assigns[id]);
  }

  /** A listed reply can be handled exactly while its room is open; a cascade may close it first. */
  lemma ReplyItemsNeedAnOpenRoom(b: Board, i: nat, account: nat)
    requires BoardOk(b) && ReplyDue(b, i, account, None)
    ensures Handle(b, account, b.receipts[i].thread, b.receipts[i].entry).Ok? <==> IsOpen(b, b.receipts[i].thread)
  {
    assert ReceiptOk(b, b.receipts[i]);
  }

  lemma CascadeStrandsAReply()
    ensures var b := Board([true], map[(0, 0) := R.Governor, (0, 1) := R.Speaker], [0], [], map[], [Receipt(0, 0, 1, Pending, 0)]);
            var closed := Deactivate(b, 0, {0});
            && BoardOk(b) && BoardOk(closed)
            && ReplyKey(closed, 0) in TodoItems(closed, [], 1, None, 0)
            && Handle(closed, 1, 0, 0).Err?
  {
    var b := Board([true], map[(0, 0) := R.Governor, (0, 1) := R.Speaker], [0], [], map[], [Receipt(0, 0, 1, Pending, 0)]);
    assert ReceiptOk(b, b.receipts[0]);
    DeactivateStep(b, 0, {0}, 0);
    assert ReplyDue(Deactivate(b, 0, {0}), 0, 1, None);
    Listed(Deactivate(b, 0, {0}), [], 1, None, 0, 0);
  }

  // -- open item counts --

  function CountIf(n: nat, selects: int -> bool): nat {
    if n == 0 then 0 else CountIf(n - 1, selects) + if selects(n - 1) then 1 else 0
  }

  /** COUNT(*) over the three branches of one room. */
  function OpenItems(b: Board, account: nat, thread: nat, now: int): nat {
    CountIf(|b.receipts|, ReplyRows(b, account, Some(thread)))
    + CountIf(|b.assigns|, DeliverRows(b, account, Some(thread), now))
    + CountIf(|b.assigns|, JudgeRows(b, account, Some(thread), now))
  }

  lemma PickedGrows(n: nat, selects: int -> bool, key: int -> Key)
    requires n > 0
    ensures Picked(n, selects, key) == Picked(n - 1, selects, key) + if selects(n - 1) then {key(n - 1)} else {}
  {
  }

  lemma {:induction false} CountIsSize(n: nat, selects: int -> bool, key: int -> Key)
    requires forall i :: key(i).row == i
    ensures |Picked(n, selects, key)| == CountIf(n, selects)
  {
    if n > 0 {
      CountIsSize(n - 1, selects, key);
      PickedGrows(n, selects, key);
      PickedHas(n - 1, selects, key, n - 1);
    }
  }

  lemma BranchesApart(a: set<Key>, b: set<Key>, c: set<Key>)
    requires forall k :: k in a ==> k.branch == 1
    requires forall k :: k in b ==> k.branch == 2
    requires forall k :: k in c ==> k.branch == 3
    ensures |a + b + c| == |a| + |b| + |c|
  {
    assert a !! b && (a + b) !! c;
  }

  lemma NoClaimsInRooms(claims: seq<Engagement>, account: nat, thread: nat, now: int)
    ensures Picked(|claims|, ClaimRows(claims, account, Some(thread), now), ClaimKeys(claims)) == {}
  {
  }

  /** The branches of a room-scoped list, counted. */
  lemma BranchSizes(b: Board, account: nat, thread: nat, now: int)
    ensures |Picked(|b.receipts|, ReplyRows(b, account, Some(thread)), ReplyKeys(b))|
            == CountIf(|b.receipts|, ReplyRows(b, account, Some(thread)))
    ensures |Picked(|b.assigns|, DeliverRows(b, account, Some(thread), now), DeliverKeys(b))|
            == CountIf(|b.assigns|, DeliverRows(b, account, Some(thread), now))
    ensures |Picked(|b.assigns|, JudgeRows(b, account, Some(thread), now), JudgeKeys(b))|
            == CountIf(|b.assigns|, JudgeRows(b, account, Some(thread), now))
  {
    CountIsSize(|b.receipts|, ReplyRows(b, account, Some(thread)), ReplyKeys(b));
    CountIsSize(|b.assigns|, DeliverRows(b, account, Some(thread), now), DeliverKeys(b));
    CountIsSize(|b.assigns|, JudgeRows(b, account, Some(thread), now), JudgeKeys(b));
  }

  /** The per-room count is the length of the room-scoped list. */
  lemma OpenItemsMatchTheList(b: Board, claims: seq<Engagement>, account: nat, thread: nat, now: int)
    ensures OpenItems(b, account, thread, now) == |TodoItems(b, claims, account, Some(thread), now)|
  {
    var scope := Some(thread);
    BranchSizes(b, account, thread, now);
    NoClaimsInRooms(claims, account, thread, now);
    PickedBranch(|b.receipts|, ReplyRows(b, account, scope), ReplyKeys(b), 1);
    PickedBranch(|b.assigns|, DeliverRows(b, account, scope, now), DeliverKeys(b), 2);
    PickedBranch(|b.assigns|, JudgeRows(b, account, scope, now), JudgeKeys(b), 3);
    BranchesApart(Picked(|b.receipts|, ReplyRows(b, account, scope), ReplyKeys(b)),
                  Picked(|b.assigns|, DeliverRows(b, account, scope, now), DeliverKeys(b)),
                  Picked(|b.assigns|, JudgeRows(b, account, scope, now), JudgeKeys(b)));
  }

  // -- paging --

  predicate Less(a: Key, b: Key) {
    || a.produced < b.produced
    || (a.produced == b.produced && a.branch < b.branch)
    || (a.produced == b.produced && a.branch == b.branch && a.row < b.row)
  }

  predicate Beyond(after: Option<Key>, k: Key) {
    after.None? || Less(after.value, k)
  }

  lemma LessIsTotal(a: Key, b: Key)
    ensures a == b || Less(a, b) || Less(b, a)
  {
  }

  predicate IsLeast(k: Key, items: set<Key>) {
    k in items && forall x :: x in items ==> x == k || Less(k, x)
  }

  lemma HasLeast(items: set<Key>) returns (least: Key)
    requires items != {}
    ensures IsLeast(least, items)
    decreases |items|
  {
    var k :| k in items;
    var others := items - {k};
    if others == {} {
      least := k;
    } else {
      var m := HasLeast(others);
      LessIsTotal(k, m);
      least := if Less(k, m) then k else m;
    }
    forall x | x in items ensures x == least || Less(least, x) {
      assert x == k || x in others;
    }
  }

  lemma SomeLeast(items: set<Key>)
    requires items != {}
    ensures exists k :: IsLeast(k, items)
  {
    var k := HasLeast(items);
  }

  /** ORDER BY produced, branch, row id. */
  ghost function Ordered(items: set<Key>): (rows: seq<Key>)
    ensures forall k :: k in rows <==> k in items
    ensures forall i, j :: 0 <= i < j < |rows| ==> Less(rows[i], rows[j])
    decreases |items|
  {
    if items == {} then []
    else
      SomeLeast(items);
      var k :| IsLeast(k, items);
      [k] + Ordered(items - {k})
  }

  /** One page: 51 rows are read beyond the cursor, 50 shown, and the 50th is the next cursor. */
  datatype Page = Page(shown: seq<Key>, next: Option<Key>)

  ghost function PageOf(items: set<Key>, after: Option<Key>): Page {
    var rows := Ordered(set k | k in items && Beyond(after, k));
    var read := if |rows| > PAGE + 1 then rows[..PAGE + 1] else rows;
    if |read| > PAGE then Page(read[..PAGE], Some(read[PAGE - 1])) else Page(read, None)
  }

  /** A page shows the least items beyond the cursor, in order; all of them, or all up to the next cursor. */
  lemma PageShowsLeast(items: set<Key>, after: Option<Key>)
    ensures var page := PageOf(items, after);
            && Ascending(page.shown)
            && (forall k :: k in page.shown <==> k in items && Beyond(after, k) && (page.next.None? || !Less(page.next.value, k)))
            && (page.next.Some? ==> Beyond(after, page.next.value))
  {
    var rows := Ordered(set k | k in items && Beyond(after, k));
    var page := PageOf(items, after);
    assert page.shown == rows[..|page.shown|];
    forall k ensures k in page.shown <==> k in items && Beyond(after, k) && (page.next.None? || !Less(page.next.value, k)) {
      assert k in rows <==> k in items && Beyond(after, k);
      if k in rows {
        var i :| 0 <= i < |rows| && rows[i] == k;
        assert i < |page.shown| ==> page.shown[i] == k;
      }
    }
  }

  lemma {:induction false} OrderedHasAll(items: set<Key>)
    ensures |Ordered(items)| == |items|
    decreases |items|
  {
    if items != {} {
      SomeLeast(items);
      var k :| IsLeast(k, items) && Ordered(items) == [k] + Ordered(items - {k});
      OrderedHasAll(items - {k});
    }
  }

  /** A page holds the first 50 rows beyond the cursor, and has a successor exactly when there are more. */
  lemma PageSizeIsExact(items: set<Key>, after: Option<Key>)
    ensures var beyond := set k | k in items && Beyond(after, k);
            var page := PageOf(items, after);
            && |page.shown| == (if |beyond| > 50 then 50 else |beyond|)
            && (page.next.Some? <==> |beyond| > 50)
            && (page.next.Some? ==> page.next.value == page.shown[49])
  {
    OrderedHasAll(set k | k in items && Beyond(after, k));
  }

  /** Following the cursor while the list changes under the reader; done when a page has no next cursor. */
  ghost function Walk(lists: seq<set<Key>>, after: Option<Key>): (seq<Key>, bool) {
    if lists == [] then ([], false)
    else
      var page := PageOf(lists[0], after);
      if page.next.None? then (page.shown, true)
      else
        var rest := Walk(lists[1..], page.next);
        (page.shown + rest.0, rest.1)
  }

  predicate Ascending(keys: seq<Key>) {
    forall i, j :: 0 <= i < j < |keys| ==> Less(keys[i], keys[j])
  }

  predicate AllBeyond(after: Option<Key>, keys: seq<Key>) {
    forall i :: 0 <= i < |keys| ==> Beyond(after, keys[i])
  }

  /** What is shown keeps strictly ascending across pages, and lies beyond the cursor. */
  lemma {:induction false} WalkAscends(lists: seq<set<Key>>, after: Option<Key>)
    ensures Ascending(Walk(lists, after).0) && AllBeyond(after, Walk(lists, after).0)
  {
    if lists != [] {
      var page := PageOf(lists[0], after);
      PageShowsLeast(lists[0], after);
      forall i | 0 <= i < |page.shown| ensures Beyond(after, page.shown[i]) {
        assert page.shown[i] in page.shown;
      }
      if page.next.Some? {
        WalkAscends(lists[1..], page.next);
        forall i | 0 <= i < |page.shown| ensures !Less(page.next.value, page.shown[i]) {
          assert page.shown[i] in page.shown;
        }
        Joined(page.shown, page.next.value, Walk(lists[1..], page.next).0);
      }
    }
  }

  lemma Joined(first: seq<Key>, middle: Key, rest: seq<Key>)
    requires Ascending(first) && Ascending(rest) && AllBeyond(Some(middle), rest)
    requires forall i :: 0 <= i < |first| ==> !Less(middle, first[i])
    ensures Ascending(first + rest)
  {
    forall i, j | 0 <= i < j < |first + rest| ensures Less((first + rest)[i], (first + rest)[j]) {
      if i < |first| <= j {
        assert Beyond(Some(middle), rest[j - |first|]);
        LessIsTotal(middle, first[i]);
      }
    }
  }

  lemma {:induction false} WalkReaches(lists: seq<set<Key>>, after: Option<Key>, x: Key)
    requires Walk(lists, after).1 && Beyond(after, x)
    requires forall k :: 0 <= k < |lists| ==> x in lists[k]
    ensures x in Walk(lists, after).0
  {
    var page := PageOf(lists[0], after);
    PageShowsLeast(lists[0], after);
    if x !in page.shown {
      WalkReaches(lists[1..], page.next, x);
    }
  }

  /** An obligation that stays open until the last page is shown exactly once, whatever else settles or appears. */
  lemma OpenThroughoutIsShownOnce(lists: seq<set<Key>>, x: Key)
    requires Walk(lists, None).1
    requires forall k :: 0 <= k < |lists| ==> x in lists[k]
    ensures var shown := Walk(lists, None).0;
            exists i :: 0 <= i < |shown| && shown[i] == x && forall j :: 0 <= j < |shown| && shown[j] == x ==> j == i
  {
    WalkReaches(lists, None, x);
    WalkAscends(lists, None);
    var shown := Walk(lists, None).0;
    var i :| 0 <= i < |shown| && shown[i] == x;
    forall j | 0 <= j < |shown| && shown[j] == x ensures j == i {
      assert !Less(x, x);
    }
  }

  /** Nothing shown was closed when its page was read. */
  lemma {:induction false} ShownWasOpen(lists: seq<set<Key>>, after: Option<Key>, x: Key)
    requires x in Walk(lists, after).0
    ensures exists k :: 0 <= k < |lists| && x in lists[k]
  {
    var page := PageOf(lists[0], after);
    PageShowsLeast(lists[0], after);
    if x !in page.shown {
      ShownWasOpen(lists[1..], page.next, x);
      var k :| 0 <= k < |lists| - 1 && x in lists[1..][k];
      assert x in lists[k + 1];
    }
  }
}
