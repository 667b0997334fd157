/**
 What a history of refund and dispute facts adds up to. Facts may arrive twice, late and in
 any order; what has been taken back depends on the set of facts alone.
 */
module ReversalHistory {
  import opened Int64
  import opened Results
  import opened Credits
  import opened Schema
  import opened Reversal
  import opened Payments
  import opened PaymentLaws
  import opened TaskLaws
  import opened EconomyRuns
  import opened EconomyHistory
  import opened FinanceAudit
  import Rows

  // -- what the facts call for --

  /** The facts of payment p that the run from the empty economy accepted, in order of arrival. */
  function Accepted(ops: seq<Op>, p: nat): seq<Adjustment> {
    if ops == [] then []
    else
      var init := ops[..|ops| - 1];
      var op := ops[|ops| - 1];
      if AcceptedNow(Run(EMPTY, init), op, p) then Accepted(init, p) + [op.payment.fact] else Accepted(init, p)
  }

  predicate AcceptedNow(e: Economy, op: Op, p: nat) {
    op.PaymentStep? && op.payment.Adjust? && op.payment.fact.payment == p && Step(e, op).Ok?
  }

  predicate Disputed(facts: seq<Adjustment>) {
    exists i :: 0 <= i < |facts| && facts[i].kind == Dispute
  }

  function MaxReported(facts: seq<Adjustment>): (m: int)
    ensures m >= 0
    ensures forall i :: 0 <= i < |facts| ==> facts[i].refunded.GetOr(0) <= m
    ensures m == 0 || exists i :: 0 <= i < |facts| && facts[i].refunded.GetOr(0) == m
  {
    if facts == [] then 0
    else
      var init := facts[..|facts| - 1];
      assert facts == init + [facts[|facts| - 1]];
      Max(MaxReported(init), facts[|facts| - 1].refunded.GetOr(0))
  }

  /** The share of the grant that one fact calls for, on its own amount paid. */
  function ShareOf(credits: nat, a: Adjustment): (share: int)
    ensures share >= 0
  {
    if a.amountPaid <= 0 || a.refunded.GetOr(0) < 0 then 0 else ShareOfRefund(credits, a.refunded.GetOr(0), a.amountPaid)
  }

  function ShareOfRefund(credits: nat, refunded: nat, paid: int): (share: int)
    requires paid > 0
    ensures share == Share(credits, refunded, paid) && share >= 0
  {
    FloorBounds(credits * refunded, paid);
    Share(credits, refunded, paid)
  }

  function LargestShare(credits: nat, facts: seq<Adjustment>): (m: int)
    ensures m >= 0
    ensures forall i :: 0 <= i < |facts| ==> ShareOf(credits, facts[i]) <= m
    ensures m == 0 || exists i :: 0 <= i < |facts| && ShareOf(credits, facts[i]) == m
  {
    if facts == [] then 0
    else
      var init := facts[..|facts| - 1];
      assert facts == init + [facts[|facts| - 1]];
      Max(LargestShare(credits, init), ShareOf(credits, facts[|facts| - 1]))
  }

  /** The whole grant once disputed, else the largest share any fact calls for. */
  function Expected(credits: nat, facts: seq<Adjustment>): int {
    if Disputed(facts) then credits else LargestShare(credits, facts)
  }

  /** Order and repetition of the facts do not matter. */
  lemma ExpectedDependsOnSet(credits: nat, f: seq<Adjustment>, g: seq<Adjustment>)
    requires forall a :: a in f <==> a in g
    ensures Expected(credits, f) == Expected(credits, g)
  {
    LargestWithin(credits, f, g);
    LargestWithin(credits, g, f);
    DisputedWithin(f, g);
    DisputedWithin(g, f);
  }

  lemma LargestWithin(credits: nat, f: seq<Adjustment>, g: seq<Adjustment>)
    requires forall a :: a in f ==> a in g
    ensures LargestShare(credits, f) <= LargestShare(credits, g)
  {
    if LargestShare(credits, f) > 0 {
      var i :| 0 <= i < |f| && ShareOf(credits, f[i]) == LargestShare(credits, f);
      assert f[i] in g;
    }
  }

  lemma DisputedWithin(f: seq<Adjustment>, g: seq<Adjustment>)
    requires forall a :: a in f ==> a in g
    ensures Disputed(f) ==> Disputed(g)
  {
    if Disputed(f) {
      var i :| 0 <= i < |f| && f[i].kind == Dispute;
      assert f[i] in g;
    }
  }

  /** Facts with one amount paid call for the share of the largest cumulative refund. */
  lemma ExpectedOfOneAmount(credits: nat, facts: seq<Adjustment>, amountPaid: int)
    requires amountPaid > 0
    requires forall i :: 0 <= i < |facts| ==> facts[i].amountPaid == amountPaid && facts[i].refunded.GetOr(0) >= 0
    ensures Expected(credits, facts) == if Disputed(facts) then credits else Share(credits, MaxReported(facts), amountPaid)
  {
    LargestOfOneAmount(credits, facts, amountPaid);
  }

  lemma {:induction false} LargestOfOneAmount(credits: nat, facts: seq<Adjustment>, amountPaid: int)
    requires amountPaid > 0
    requires forall i :: 0 <= i < |facts| ==> facts[i].amountPaid == amountPaid && facts[i].refunded.GetOr(0) >= 0
    ensures LargestShare(credits, facts) == Share(credits, MaxReported(facts), amountPaid)
  {
    if facts == [] {
      FloorUnique(credits * 0, amountPaid, 0);
    } else {
      var init, last := facts[..|facts| - 1], facts[|facts| - 1];
      LargestOfOneAmount(credits, init, amountPaid);
      var m, r := MaxReported(init), last.refunded.GetOr(0);
      assert ShareOf(credits, last) == Share(credits, r, amountPaid);
      if m <= r {
        ShareMonotone(credits, m, r, amountPaid);
      } else {
        ShareMonotone(credits, r, m, amountPaid);
      }
    }
  }

  lemma OneMoreFact(credits: nat, facts: seq<Adjustment>, fact: Adjustment)
    ensures Disputed(facts + [fact]) <==> Disputed(facts) || fact.kind == Dispute
    ensures MaxReported(facts + [fact]) == Max(MaxReported(facts), fact.refunded.GetOr(0))
    ensures LargestShare(credits, facts + [fact]) == Max(LargestShare(credits, facts), ShareOf(credits, fact))
  {
    var more := facts + [fact];
    assert more[..|facts|] == facts;
    assert forall i :: 0 <= i < |facts| ==> more[i] == facts[i];
    assert more[|facts|] == fact;
  }

  // -- facts that cross --

  /**
   The object of the fact is on file for another payment, and payment p notices: either the
   fact is its own, or the row that the fact rewrites is.
   */
  predicate Crosses(adjs: seq<Adjustment>, fact: Adjustment, p: nat) {
    var at := FindObject(adjs, fact);
    && at.Some? && adjs[at.value].payment != fact.payment
    && (fact.payment == p || (adjs[at.value].payment == p && Upsert(adjs, fact) != adjs))
  }

  predicate CrossesAt(e: Economy, op: Op, p: nat) {
    op.PaymentStep? && op.payment.Adjust? && Step(e, op).Ok? && Crosses(e.adjustments, op.payment.fact, p)
  }

  /** No accepted fact of the run crossed payment p when it arrived. */
  predicate Apart(ops: seq<Op>, p: nat) {
    ops == [] || (Apart(ops[..|ops| - 1], p) && !CrossesAt(Run(EMPTY, ops[..|ops| - 1]), ops[|ops| - 1], p))
  }

  /** Rows stay where they are, and a new one is the fact itself. */
  lemma UpsertKeepsRows(adjs: seq<Adjustment>, fact: Adjustment)
    ensures var after := Upsert(adjs, fact);
            && |adjs| <= |after| <= |adjs| + 1
            && (forall i :: 0 <= i < |adjs| ==> after[i].payment == adjs[i].payment && after[i].kind == adjs[i].kind)
            && (|after| > |adjs| ==> after[|adjs|] == fact && FindObject(adjs, fact).None?)
  {
  }

  // -- each payment's rows as if it were alone --

  /** The table that these facts alone would fill. */
  function Alone(facts: seq<Adjustment>): seq<Adjustment> {
    if facts == [] then [] else Upsert(Alone(facts[..|facts| - 1]), facts[|facts| - 1])
  }

  /** Replacing a row replaces it in the selection of its payment. */
  lemma {:induction false} OfUpdated(adjs: seq<Adjustment>, p: nat, i: nat, row: Adjustment)
    requires i < |adjs| && row.payment == adjs[i].payment
    ensures |Of(adjs[..i], p)| <= |Of(adjs, p)|
    ensures adjs[i].payment != p ==> Of(adjs[i := row], p) == Of(adjs, p)
    ensures adjs[i].payment == p ==>
              var k := |Of(adjs[..i], p)|;
              k < |Of(adjs, p)| && Of(adjs, p)[k] == adjs[i] && Of(adjs[i := row], p) == Of(adjs, p)[k := row]
  {
    var last := |adjs| - 1;
    if i == last {
      assert adjs[i := row][..last] == adjs[..last];
    } else {
      assert adjs[i := row][..last] == adjs[..last][i := row];
      assert adjs[..last][..i] == adjs[..i];
      OfUpdated(adjs[..last], p, i, row);
    }
  }

  /** The last row of an object, looked up in the selection of its payment. */
  lemma {:induction false} FoundInSelection(adjs: seq<Adjustment>, fact: Adjustment, p: nat)
    ensures FindObject(adjs, fact).None? ==> FindObject(Of(adjs, p), fact).None?
    ensures ObjectsUnique(adjs) && FindObject(adjs, fact).Some? && adjs[FindObject(adjs, fact).value].payment != p ==>
              FindObject(Of(adjs, p), fact).None?
    ensures FindObject(adjs, fact).Some? && adjs[FindObject(adjs, fact).value].payment == p ==>
              FindObject(Of(adjs, p), fact) == Some(|Of(adjs[..FindObject(adjs, fact).value], p)|)
  {
    if adjs != [] {
      var last := |adjs| - 1;
      var init := adjs[..last];
      FoundInSelection(init, fact, p);
      if SameObject(adjs[last], fact) {
        if ObjectsUnique(adjs) {
          forall i | 0 <= i < |init| ensures !SameObject(init[i], fact) {
            assert !SameObject(adjs[i], adjs[last]);
          }
        }
      } else if FindObject(init, fact).Some? {
        assert adjs[..FindObject(init, fact).value] == init[..FindObject(init, fact).value];
      }
    }
  }

  /**
   Exactly when the upsert treats the payment as if no other existed: its own facts go into its
   own rows, and nobody else's do.
   */
  lemma IsolatedExactly(adjs: seq<Adjustment>, fact: Adjustment, p: nat)
    requires ObjectsUnique(adjs)
    ensures Of(Upsert(adjs, fact), p) == (if fact.payment == p then Upsert(Of(adjs, p), fact) else Of(adjs, p))
            <==> !Crosses(adjs, fact, p)
  {
    FoundInSelection(adjs, fact, p);
    match FindObject(adjs, fact)
    case None => assert (adjs + [fact])[..|adjs|] == adjs;
    case Some(i) =>
      var row := adjs[i].(refunded := fact.refunded, amountPaid := fact.amountPaid);
      OfUpdated(adjs, p, i, row);
      assert row == adjs[i] ==> adjs[i := row] == adjs;
  }

  // -- the stored facts summarise the accepted ones --

  /** MaxRefunded is the least bound of what the payment's rows report. */
  lemma {:induction false} MaxRefundedIsLeast(adjs: seq<Adjustment>, p: nat, m: int)
    requires m >= 0
    requires forall i :: 0 <= i < |adjs| && adjs[i].payment == p ==> adjs[i].refunded.GetOr(0) <= m
    requires m == 0 || exists i :: 0 <= i < |adjs| && adjs[i].payment == p && adjs[i].refunded.GetOr(0) == m
    ensures MaxRefunded(adjs, p) == m
  {
    if adjs != [] {
      var last := |adjs| - 1;
      var init := adjs[..last];
      if adjs[last].payment == p && adjs[last].refunded.GetOr(0) == m {
        MaxRefundedBelow(init, p, m);
      } else {
        if m > 0 {
          var i :| 0 <= i < |adjs| && adjs[i].payment == p && adjs[i].refunded.GetOr(0) == m;
          assert init[i] == adjs[i];
        }
        MaxRefundedIsLeast(init, p, m);
      }
    }
  }

  lemma {:induction false} MaxRefundedBelow(adjs: seq<Adjustment>, p: nat, m: int)
    requires m >= 0
    requires forall i :: 0 <= i < |adjs| && adjs[i].payment == p ==> adjs[i].refunded.GetOr(0) <= m
    ensures MaxRefunded(adjs, p) <= m
  {
    if adjs != [] {
      MaxRefundedBelow(adjs[..|adjs| - 1], p, m);
    }
  }

  lemma {:induction false} MaxRefundedBounds(adjs: seq<Adjustment>, p: nat)
    ensures forall i :: 0 <= i < |adjs| && adjs[i].payment == p ==> adjs[i].refunded.GetOr(0) <= MaxRefunded(adjs, p)
    ensures MaxRefunded(adjs, p) == 0
            || exists i :: 0 <= i < |adjs| && adjs[i].payment == p && adjs[i].refunded.GetOr(0) == MaxRefunded(adjs, p)
  {
    if adjs != [] {
      var last := |adjs| - 1;
      var init := adjs[..last];
      MaxRefundedBounds(init, p);
      forall i | 0 <= i < |adjs| && adjs[i].payment == p ensures adjs[i].refunded.GetOr(0) <= MaxRefunded(adjs, p) {
        assert i < last ==> init[i] == adjs[i];
      }
      if MaxRefunded(adjs, p) == MaxRefunded(init, p) > 0 {
        var i :| 0 <= i < |init| && init[i].payment == p && init[i].refunded.GetOr(0) == MaxRefunded(init, p);
        assert adjs[i] == init[i];
      }
    }
  }

  /** Unless it crosses, the fact raises its payment's maximum and leaves the others' alone. */
  lemma UpsertMaximum(adjs: seq<Adjustment>, fact: Adjustment, q: nat)
    requires fact.refunded.GetOr(0) >= 0 && !Crosses(adjs, fact, q)
    ensures MaxRefunded(Upsert(adjs, fact), q)
            == if q == fact.payment then Max(MaxRefunded(adjs, q), fact.refunded.GetOr(0)) else MaxRefunded(adjs, q)
  {
    var after := Upsert(adjs, fact);
    MaxRefundedBounds(adjs, q);
    var m := if q == fact.payment then Max(MaxRefunded(adjs, q), fact.refunded.GetOr(0)) else MaxRefunded(adjs, q);
    var at := match FindObject(adjs, fact) case Some(i) => i case None => |adjs|;
    assert q == fact.payment ==> after[at].payment == q;
    if m > 0 {
      if m == MaxRefunded(adjs, q) {
        var i :| 0 <= i < |adjs| && adjs[i].payment == q && adjs[i].refunded.GetOr(0) == m;
        assert after[i].payment == q && after[i].refunded.GetOr(0) == m;
      } else {
        assert after[at].refunded.GetOr(0) == m;
      }
    }
    MaxRefundedIsLeast(after, q, m);
  }

  lemma UpsertDispute(adjs: seq<Adjustment>, fact: Adjustment, q: nat)
    ensures HasDispute(Upsert(adjs, fact), q) ==> HasDispute(adjs, q) || (q == fact.payment && fact.kind == Dispute)
    ensures HasDispute(adjs, q) ==> HasDispute(Upsert(adjs, fact), q)
    ensures !Crosses(adjs, fact, q) && q == fact.payment && fact.kind == Dispute ==> HasDispute(Upsert(adjs, fact), q)
  {
    UpsertKeepsRows(adjs, fact);
    var after := Upsert(adjs, fact);
    if HasDispute(adjs, q) {
      var i :| 0 <= i < |adjs| && adjs[i].payment == q && adjs[i].kind == Dispute;
      assert after[i].payment == q && after[i].kind == Dispute;
    }
    if !Crosses(adjs, fact, q) && q == fact.payment && fact.kind == Dispute {
      var at := match FindObject(adjs, fact) case Some(i) => i case None => |adjs|;
      assert after[at].payment == q && after[at].kind == Dispute;
    }
  }

  /** The row reports what some fact of the list reported. */
  predicate Reported(row: Adjustment, facts: seq<Adjustment>) {
    exists k :: 0 <= k < |facts| && facts[k].refunded == row.refunded && facts[k].amountPaid == row.amountPaid
  }

  predicate Sourced(adjs: seq<Adjustment>, p: nat, facts: seq<Adjustment>) {
    forall i :: 0 <= i < |adjs| && adjs[i].payment == p ==> Reported(adjs[i], facts)
  }

  lemma ReportedStill(row: Adjustment, facts: seq<Adjustment>, fact: Adjustment)
    requires Reported(row, facts)
    ensures Reported(row, facts + [fact])
  {
    var k :| 0 <= k < |facts| && facts[k].refunded == row.refunded && facts[k].amountPaid == row.amountPaid;
    assert (facts + [fact])[k] == facts[k];
  }

  lemma UpsertSourced(adjs: seq<Adjustment>, fact: Adjustment, p: nat, facts: seq<Adjustment>)
    requires Sourced(adjs, p, facts) && !Crosses(adjs, fact, p)
    ensures Sourced(Upsert(adjs, fact), p, if p == fact.payment then facts + [fact] else facts)
  {
    var after := Upsert(adjs, fact);
    var more := if p == fact.payment then facts + [fact] else facts;
    UpsertKeepsRows(adjs, fact);
    forall i | 0 <= i < |after| && after[i].payment == p ensures Reported(after[i], more) {
      if i < |adjs| && after[i] == adjs[i] {
        if p == fact.payment {
          ReportedStill(adjs[i], facts, fact);
        }
      } else {
        assert more[|facts|] == fact;
      }
    }
  }

  // -- steps that do not adjust this payment --

  lemma OtherRowKeepsReversed(e: Economy, e': Economy, row: Row, p: nat)
    requires OnePost(e.books, e'.books, row) && row.kind != ReversePayment
    requires p < |e.payments| && p < |e'.payments| && e'.payments[p].bot == e.payments[p].bot
    ensures Reversed(e', p) == Reversed(e, p)
  {
    Rows.SumAppend(e.books.ledger, row, Selected(e.payments[p].bot, ReversePayment, PaymentRef(p)));
  }

  lemma TaskStepKeepsReversed(e: Economy, op: TaskOp, p: nat)
    requires StepTask(e, op).Ok? && p < |e.payments|
    ensures var e' := StepTask(e, op).value;
            p < |e'.payments| && Reversed(e', p) == Reversed(e, p) && e'.adjustments == e.adjustments
  {
    TaskStepStaysHome(e, op);
    var e' := StepTask(e, op).value;
    if e'.books != e.books {
      var row :| OnePost(e.books, e'.books, row) && TaskKind(row.kind);
      OtherRowKeepsReversed(e, e', row, p);
    }
  }

  lemma RewardStepKeepsReversed(e: Economy, op: RewardOp, p: nat)
    requires StepReward(e, op).Ok? && p < |e.payments|
    ensures var e' := StepReward(e, op).value;
            p < |e'.payments| && Reversed(e', p) == Reversed(e, p) && e'.adjustments == e.adjustments
  {
    RewardStepPosts(e, op);
    var e' := StepReward(e, op).value;
    if e'.books != e.books {
      var post :| Posted(e.books, e'.books, post) && (post.kind == SpendRedemption || post.kind == RefundRedemption);
      PostKeepsReversed(e, e', post, p);
    }
  }

  lemma OrderStepKeepsReversed(e: Economy, op: PaymentOp, p: nat)
    requires !op.Adjust? && StepPayment(e, op).Ok? && p < |e.payments|
    ensures var e' := StepPayment(e, op).value;
            p < |e'.payments| && Reversed(e', p) == Reversed(e, p) && e'.adjustments == e.adjustments
  {
    PaymentStepKeeps(e, op);
    var e' := StepPayment(e, op).value;
    assert PaymentKept(e.payments[p], e'.payments[p]);
    if e'.books != e.books {
      var pay := e.payments[op.payment];
      PostKeepsReversed(e, e', Posting(pay.bot, GrantPayment, pay.credits, PaymentRef(op.payment), pay.credits >= 0), p);
    }
  }

  /** Only adjustments write reversals. */
  lemma OnlyAdjustmentsReverse(e: Economy, op: Op, p: nat)
    requires Step(e, op).Ok? && p < |e.payments|
    requires !(op.PaymentStep? && op.payment.Adjust?)
    ensures p < |Commit(e, op).payments| && Reversed(Commit(e, op), p) == Reversed(e, p)
    ensures Commit(e, op).adjustments == e.adjustments
  {
    match op
    case TaskStep(t) => TaskStepKeepsReversed(e, t, p);
    case RewardStep(r) => RewardStepKeepsReversed(e, r, p);
    case PaymentStep(x) => OrderStepKeepsReversed(e, x, p);
    case MemoryStep(m) =>
    case Charge(bot, name, amount) =>
      PostKeepsReversed(e, Commit(e, op), Posting(bot, OtherKind(name), amount, NoRef, amount >= 0), p);
    case Register =>
      var joined := e.(books := e.books.(balances := e.books.balances + [0]));
      PostKeepsReversed(joined, Commit(e, op), Posting(|e.books.balances|, OtherKind("grant_signup"), SIGNUP_GRANT, NoRef, true), p);
  }

  lemma PostKeepsReversed(e: Economy, e': Economy, post: Posting, p: nat)
    requires Posted(e.books, e'.books, post) && post.kind != ReversePayment
    requires p < |e.payments| && p < |e'.payments| && e'.payments[p].bot == e.payments[p].bot
    ensures Reversed(e', p) == Reversed(e, p)
  {
    PostAppends(e.books, post.bot, post.kind, post.amount, post.ref, post.allowNegative);
    OtherRowKeepsReversed(e, e', e'.books.ledger[|e.books.ledger|], p);
  }

  // -- the history theorem --

  /** The rows of one payment, read off the facts accepted so far. */
  ghost predicate Summarised(e: Economy, p: nat, facts: seq<Adjustment>) {
    && (HasDispute(e.adjustments, p) <==> Disputed(facts))
    && MaxRefunded(e.adjustments, p) == MaxReported(facts)
    && Sourced(e.adjustments, p, facts)
    && (p < |e.payments| ==>
          && e.payments[p].credits >= 0
          && Reversed(e, p) == Expected(e.payments[p].credits, facts))
    && (p >= |e.payments| ==> facts == [])
  }

  lemma UpsertSummary(e: Economy, fact: Adjustment, p: nat, facts: seq<Adjustment>)
    requires Summarised(e, p, facts) && fact.refunded.GetOr(0) >= 0 && !Crosses(e.adjustments, fact, p)
    ensures var adjs := Upsert(e.adjustments, fact);
            var more := if p == fact.payment then facts + [fact] else facts;
            && (HasDispute(adjs, p) <==> Disputed(more))
            && MaxRefunded(adjs, p) == MaxReported(more)
            && Sourced(adjs, p, more)
  {
    UpsertDispute(e.adjustments, fact, p);
    UpsertMaximum(e.adjustments, fact, p);
    UpsertSourced(e.adjustments, fact, p, facts);
    OneMoreFact(0, facts, fact);
  }

  /** The target of a payment's rows, between the share of one fact and the largest share of all. */
  lemma TargetBetween(adjs: seq<Adjustment>, p: nat, credits: nat, facts: seq<Adjustment>, fact: Adjustment)
    requires Sourced(adjs, p, facts) && OneBasis(adjs, p, fact.transaction, fact.amountPaid)
    requires fact.amountPaid > 0 && 0 <= fact.refunded.GetOr(0) <= MaxRefunded(adjs, p) <= fact.amountPaid
    ensures ShareOf(credits, fact) <= Share(credits, MaxRefunded(adjs, p), fact.amountPaid) <= LargestShare(credits, facts)
  {
    var m := MaxRefunded(adjs, p);
    ShareMonotone(credits, fact.refunded.GetOr(0), m, fact.amountPaid);
    MaxRefundedBounds(adjs, p);
    if m == 0 {
      FloorUnique(credits * 0, fact.amountPaid, 0);
    } else {
      var i :| 0 <= i < |adjs| && adjs[i].payment == p && adjs[i].refunded.GetOr(0) == m;
      assert Reported(adjs[i], facts);
      var k :| 0 <= k < |facts| && facts[k].refunded == adjs[i].refunded && facts[k].amountPaid == adjs[i].amountPaid;
      assert ShareOf(credits, facts[k]) == Share(credits, m, fact.amountPaid);
    }
  }

  /** A fact of the payment that stays within its rows has facts on file. */
  lemma OwnFactIsFiled(adjs: seq<Adjustment>, fact: Adjustment)
    requires !Crosses(adjs, fact, fact.payment)
    ensures HasFact(Upsert(adjs, fact), fact.payment)
  {
    var at := match FindObject(adjs, fact) case Some(i) => i case None => |adjs|;
    assert Upsert(adjs, fact)[at].payment == fact.payment;
  }

  /** What the rows call for, against what was called for before the last fact. */
  lemma CallsFor(adjs: seq<Adjustment>, credits: int64, facts: seq<Adjustment>, fact: Adjustment)
    requires var p := fact.payment;
             && credits > 0 && fact.amountPaid > 0 && Expected(credits, facts) <= credits
             && (HasDispute(adjs, p) <==> Disputed(facts + [fact])) && Sourced(adjs, p, facts + [fact])
             && OneBasis(adjs, p, fact.transaction, fact.amountPaid)
             && 0 <= fact.refunded.GetOr(0) <= MaxRefunded(adjs, p) <= fact.amountPaid
    ensures ReversalTargetOf(adjs, fact.payment, credits, fact.amountPaid).Ok?
    ensures Max(Expected(credits, facts), ReversalTargetOf(adjs, fact.payment, credits, fact.amountPaid).value)
            == Expected(credits, facts + [fact])
  {
    OneMoreFact(credits, facts, fact);
    TargetWithinGrant(adjs, fact.payment, credits, fact.amountPaid);
    TargetBetween(adjs, fact.payment, credits, facts + [fact], fact);
  }

  /** An accepted fact of this payment. */
  lemma AcceptedStep(e: Economy, fact: Adjustment, facts: seq<Adjustment>)
    requires PaymentsExplained(e) && RecordPaymentAdjustment(e, fact).Ok?
    requires !Crosses(e.adjustments, fact, fact.payment) && Summarised(e, fact.payment, facts)
    ensures Summarised(RecordPaymentAdjustment(e, fact).value, fact.payment, facts + [fact])
  {
    var p := fact.payment;
    var adjs := Upsert(e.adjustments, fact);
    OwnFactStored(e, fact);
    UpsertSummary(e, fact, p, facts);
    OneMoreFact(0, facts, fact);
    AdjustReachesTarget(e, fact);
    assert PaymentExplained(e, p);
    CallsFor(adjs, e.payments[p].credits, facts, fact);
  }

  /** What acceptance says of the rows. */
  lemma OwnFactStored(e: Economy, fact: Adjustment)
    requires RecordPaymentAdjustment(e, fact).Ok? && !Crosses(e.adjustments, fact, fact.payment)
    ensures var adjs := Upsert(e.adjustments, fact);
            && RecordPaymentAdjustment(e, fact).value.adjustments == adjs && HasFact(adjs, fact.payment)
            && fact.amountPaid > 0 && fact.refunded.GetOr(0) >= 0 && fact.payment < |e.payments|
            && OneBasis(adjs, fact.payment, fact.transaction, fact.amountPaid)
            && MaxRefunded(adjs, fact.payment) <= fact.amountPaid
  {
    StoredExactly(e.adjustments, fact);
    OwnFactIsFiled(e.adjustments, fact);
    AdjustEffect(e, fact);
  }

  /** An accepted fact of another payment. */
  lemma ForeignFact(e: Economy, fact: Adjustment, p: nat, facts: seq<Adjustment>)
    requires PaymentsExplained(e) && RecordPaymentAdjustment(e, fact).Ok?
    requires p != fact.payment && !Crosses(e.adjustments, fact, p) && Summarised(e, p, facts)
    ensures Summarised(RecordPaymentAdjustment(e, fact).value, p, facts)
  {
    StoredExactly(e.adjustments, fact);
    StoresUpsert(e, fact);
    AdjustReachesTarget(e, fact);
    UpsertSummary(e, fact, p, facts);
  }

  lemma StoresUpsert(e: Economy, fact: Adjustment)
    requires RecordPaymentAdjustment(e, fact).Ok?
    ensures InsertPaymentAdjustment(e.adjustments, fact).Ok?
    ensures RecordPaymentAdjustment(e, fact).value.adjustments == Upsert(e.adjustments, fact)
  {
  }

  lemma KeptSummary(e: Economy, op: Op, p: nat)
    requires TaskInvariant(e) && Step(e, op).Ok? && !(op.PaymentStep? && op.payment.Adjust?)
    requires p < |e.payments|
    ensures var e' := Commit(e, op);
            && e'.adjustments == e.adjustments && p < |e'.payments|
            && e'.payments[p].credits == e.payments[p].credits && Reversed(e', p) == Reversed(e, p)
  {
    OnlyAdjustmentsReverse(e, op, p);
    StepExtends(e, op);
    assert PaymentKept(e.payments[p], Commit(e, op).payments[p]);
  }

  lemma NewOrder(e: Economy, op: PaymentOp, p: nat)
    requires StepPayment(e, op).Ok? && !op.Adjust? && p >= |e.payments|
    ensures var e' := StepPayment(e, op).value;
            && e'.adjustments == e.adjustments
            && (p < |e'.payments| ==> e'.payments[p].status == Pending)
  {
  }

  lemma NewPayment(e: Economy, op: Op, p: nat)
    requires Step(e, op).Ok? && !(op.PaymentStep? && op.payment.Adjust?) && p >= |e.payments|
    ensures Commit(e, op).adjustments == e.adjustments
    ensures p < |Commit(e, op).payments| ==> Commit(e, op).payments[p].status == Pending
  {
    match op
    case TaskStep(t) => TaskStepStaysHome(e, t);
    case RewardStep(r) => RewardStepPosts(e, r);
    case MemoryStep(m) =>
    case PaymentStep(x) => NewOrder(e, x, p);
    case Charge(bot, name, amount) =>
    case Register =>
  }

  /** Everything else, including the creation of the payment itself. */
  lemma OtherStep(e: Economy, e': Economy, p: nat, facts: seq<Adjustment>)
    requires PaymentsExplained(e') && e'.adjustments == e.adjustments
    requires p < |e.payments| ==>
               && p < |e'.payments| && e'.payments[p].credits == e.payments[p].credits && Reversed(e', p) == Reversed(e, p)
    requires p >= |e.payments| && p < |e'.payments| ==> e'.payments[p].status == Pending
    requires Summarised(e, p, facts)
    ensures Summarised(e', p, facts)
  {
    if p < |e'.payments| {
      assert PaymentExplained(e', p);
    }
  }

  /**
   After any run in which no accepted fact crossed payment p, its rows on file agree with its
   accepted facts, and what has been taken back is exactly what those call for.
   */
  lemma {:induction false} ReversedIsExpected(ops: seq<Op>, p: nat)
    requires Apart(ops, p)
    ensures Summarised(Run(EMPTY, ops), p, Accepted(ops, p))
  {
    if ops != [] {
      var init := ops[..|ops| - 1];
      var op := ops[|ops| - 1];
      var e := Run(EMPTY, init);
      ReversedIsExpected(init, p);
      EveryRunIsSound(init);
      EveryRunIsSound(ops);
      if Step(e, op).Ok? {
        StepSummary(e, op, p, Accepted(init, p));
      }
    }
  }

  lemma StepSummary(e: Economy, op: Op, p: nat, facts: seq<Adjustment>)
    requires TaskInvariant(e) && PaymentsExplained(e) && Step(e, op).Ok? && PaymentsExplained(Commit(e, op))
    requires Summarised(e, p, facts) && !CrossesAt(e, op, p)
    ensures Summarised(Commit(e, op), p, if AcceptedNow(e, op, p) then facts + [op.payment.fact] else facts)
  {
    if op.PaymentStep? && op.payment.Adjust? {
      FactSummary(e, op.payment.fact, p, facts);
    } else {
      QuietStep(e, op, p, facts);
    }
  }

  lemma FactSummary(e: Economy, fact: Adjustment, p: nat, facts: seq<Adjustment>)
    requires PaymentsExplained(e) && RecordPaymentAdjustment(e, fact).Ok?
    requires Summarised(e, p, facts) && !Crosses(e.adjustments, fact, p)
    ensures Summarised(RecordPaymentAdjustment(e, fact).value, p, if p == fact.payment then facts + [fact] else facts)
  {
    if p == fact.payment {
      AcceptedStep(e, fact, facts);
    } else {
      ForeignFact(e, fact, p, facts);
    }
  }

  lemma QuietStep(e: Economy, op: Op, p: nat, facts: seq<Adjustment>)
    requires TaskInvariant(e) && Step(e, op).Ok? && !(op.PaymentStep? && op.payment.Adjust?)
    requires PaymentsExplained(Commit(e, op)) && Summarised(e, p, facts)
    ensures Summarised(Commit(e, op), p, facts)
  {
    if p < |e.payments| {
      KeptSummary(e, op, p);
    } else {
      NewPayment(e, op, p);
    }
    OtherStep(e, Commit(e, op), p, facts);
  }

  /** Two histories that accepted the same facts, in whatever order and however often, took back the same. */
  lemma OrderDoesNotMatter(one: seq<Op>, two: seq<Op>, p: nat)
    requires Apart(one, p) && Apart(two, p)
    requires forall a :: a in Accepted(one, p) <==> a in Accepted(two, p)
    requires p < |Run(EMPTY, one).payments| && p < |Run(EMPTY, two).payments|
    requires Run(EMPTY, one).payments[p].credits == Run(EMPTY, two).payments[p].credits
    ensures Reversed(Run(EMPTY, one), p) == Reversed(Run(EMPTY, two), p)
  {
    ReversedIsExpected(one, p);
    ReversedIsExpected(two, p);
    ExpectedDependsOnSet(Run(EMPTY, one).payments[p].credits, Accepted(one, p), Accepted(two, p));
  }

  // -- disputes --

  /** Whatever objects the facts named, a dispute on file was accepted for its payment and the whole grant is gone. */
  ghost predicate DisputeSettled(e: Economy, p: nat, facts: seq<Adjustment>) {
    HasDispute(e.adjustments, p) ==> Disputed(facts) && p < |e.payments| && Reversed(e, p) == e.payments[p].credits
  }

  /** Once a dispute is on file, the whole grant is gone and stays gone, in every run. */
  lemma {:induction false} DisputeTakesAll(ops: seq<Op>, p: nat)
    ensures DisputeSettled(Run(EMPTY, ops), p, Accepted(ops, p))
    ensures Apart(ops, p) ==> (HasDispute(Run(EMPTY, ops).adjustments, p) <==> Disputed(Accepted(ops, p)))
  {
    if Apart(ops, p) {
      ReversedIsExpected(ops, p);
    }
    if ops != [] {
      var init := ops[..|ops| - 1];
      var op := ops[|ops| - 1];
      DisputeTakesAll(init, p);
      EveryRunIsSound(init);
      if Step(Run(EMPTY, init), op).Ok? {
        StepSettles(Run(EMPTY, init), op, p, Accepted(init, p));
      }
    }
  }

  lemma StepSettles(e: Economy, op: Op, p: nat, facts: seq<Adjustment>)
    requires TaskInvariant(e) && PaymentsExplained(e) && Step(e, op).Ok? && DisputeSettled(e, p, facts)
    ensures DisputeSettled(Commit(e, op), p, if AcceptedNow(e, op, p) then facts + [op.payment.fact] else facts)
  {
    if op.PaymentStep? && op.payment.Adjust? {
      DisputeStep(e, op.payment.fact, p, facts);
    } else if p < |e.payments| {
      KeptSummary(e, op, p);
    } else {
      NewPayment(e, op, p);
    }
  }

  lemma DisputeStep(e: Economy, fact: Adjustment, p: nat, facts: seq<Adjustment>)
    requires PaymentsExplained(e) && RecordPaymentAdjustment(e, fact).Ok? && DisputeSettled(e, p, facts)
    ensures DisputeSettled(RecordPaymentAdjustment(e, fact).value, p, if p == fact.payment then facts + [fact] else facts)
  {
    var e' := RecordPaymentAdjustment(e, fact).value;
    StoresUpsert(e, fact);
    UpsertDispute(e.adjustments, fact, p);
    AdjustReachesTarget(e, fact);
    OneMoreFact(0, facts, fact);
    if HasDispute(e'.adjustments, p) && p < |e.payments| {
      assert PaymentExplained(e', p);
      assert p == fact.payment ==> HasFact(e'.adjustments, p);
    }
  }

  // -- noninterference over runs, exactly --

  /** After every transaction of the run, payment p has exactly the rows that its accepted facts alone would leave. */
  predicate AlwaysAlone(ops: seq<Op>, p: nat) {
    && Of(Run(EMPTY, ops).adjustments, p) == Alone(Accepted(ops, p))
    && (ops == [] || AlwaysAlone(ops[..|ops| - 1], p))
  }

  lemma {:induction false} ObjectsStayUnique(ops: seq<Op>)
    ensures ObjectsUnique(Run(EMPTY, ops).adjustments)
  {
    if ops != [] {
      var init, op := ops[..|ops| - 1], ops[|ops| - 1];
      ObjectsStayUnique(init);
      if Step(Run(EMPTY, init), op).Ok? {
        if op.PaymentStep? && op.payment.Adjust? {
          StoresUpsert(Run(EMPTY, init), op.payment.fact);
          UpsertKeepsUnique(Run(EMPTY, init).adjustments, op.payment.fact);
        } else {
          StepKeepsPaid(Run(EMPTY, init), op);
        }
      }
    }
  }

  lemma AloneStep(ops: seq<Op>, p: nat)
    requires ops != [] && Of(Run(EMPTY, ops[..|ops| - 1]).adjustments, p) == Alone(Accepted(ops[..|ops| - 1], p))
    ensures Of(Run(EMPTY, ops).adjustments, p) == Alone(Accepted(ops, p))
            <==> !CrossesAt(Run(EMPTY, ops[..|ops| - 1]), ops[|ops| - 1], p)
  {
    var init, op := ops[..|ops| - 1], ops[|ops| - 1];
    var e := Run(EMPTY, init);
    ObjectsStayUnique(init);
    if Step(e, op).Ok? {
      if op.PaymentStep? && op.payment.Adjust? {
        StoresUpsert(e, op.payment.fact);
        IsolatedExactly(e.adjustments, op.payment.fact, p);
        if AcceptedNow(e, op, p) {
          assert (Accepted(init, p) + [op.payment.fact])[..|Accepted(init, p)|] == Accepted(init, p);
        }
      } else {
        StepKeepsPaid(e, op);
      }
    }
  }

  /**
   Over any run, payment p is stored as if no other payment existed if and only if no accepted
   fact crosses it.
   */
  lemma {:induction false} AloneExactly(ops: seq<Op>, p: nat)
    ensures AlwaysAlone(ops, p) <==> Apart(ops, p)
  {
    if ops != [] {
      AloneExactly(ops[..|ops| - 1], p);
      if AlwaysAlone(ops[..|ops| - 1], p) {
        AloneStep(ops, p);
      }
    }
  }

  /** When every object names one payment, nothing crosses. */
  lemma {:induction false} HonestStaysApart(ops: seq<Op>, owner: Ownership, p: nat)
    requires forall i :: 0 <= i < |ops| ==> Honest(ops[i], owner)
    ensures Apart(ops, p)
  {
    if ops != [] {
      var init := ops[..|ops| - 1];
      HonestStaysApart(init, owner, p);
      HonestRunsKeepFacts(init, owner);
    }
  }

  // -- a refund that is accepted and never reversed --

  /** For the second order, fully refunded, under the object of the first order's refund. */
  const WHOLE_STRAY := Adjustment(1, "creem", "e4", "o1", AdjustmentKind.Refund, "t2", 200, Some(200))

  /** Accepted, but filed under the other payment: the second order keeps its credit. */
  lemma StrayIsNotReversed()
    ensures var ops := TWO_REFUNDS + [PaymentStep(Adjust(WHOLE_STRAY))];
            && !Apart(ops, 1) && 1 < |Run(EMPTY, ops).payments|
            && Accepted(ops, 1) == [WHOLE_STRAY] && Expected(1, Accepted(ops, 1)) == 1
            && MaxRefunded(Run(EMPTY, ops).adjustments, 1) == 0 && Reversed(Run(EMPTY, ops), 1) == 0
  {
    var e := Run(EMPTY, TWO_REFUNDS);
    var last: Op := PaymentStep(Adjust(WHOLE_STRAY));
    RefundsAreFiled();
    NothingForTheSecond();
    EveryRunIsSound(TWO_REFUNDS);
    StrayStep(e);
    RunSplits(EMPTY, TWO_REFUNDS, last);
    OneMoreOp(TWO_REFUNDS, last, 1);
    WholeShare();
  }

  lemma OneMoreOp(ops: seq<Op>, op: Op, p: nat)
    ensures Accepted(ops + [op], p)
            == if AcceptedNow(Run(EMPTY, ops), op, p) then Accepted(ops, p) + [op.payment.fact] else Accepted(ops, p)
    ensures Apart(ops + [op], p) <==> Apart(ops, p) && !CrossesAt(Run(EMPTY, ops), op, p)
  {
    assert (ops + [op])[..|ops|] == ops;
  }

  lemma StrayStep(e: Economy)
    requires e.adjustments == [FIRST, SECOND] && e.payments == [PAID_ORDER, PAID_ORDER]
    requires PaymentsExplained(e) && Reversed(e, 1) == 0
    ensures var op: Op := PaymentStep(Adjust(WHOLE_STRAY));
            && AcceptedNow(e, op, 1) && CrossesAt(e, op, 1)
            && Commit(e, op).payments == e.payments
            && MaxRefunded(Commit(e, op).adjustments, 1) == 0 && Reversed(Commit(e, op), 1) == 0
  {
    assert PaymentExplained(e, 1);
    StrayIsMisfiled();
    SmallRefundCommits(e, WHOLE_STRAY);
    AdjustReachesTarget(e, WHOLE_STRAY);
  }

  lemma WholeShare()
    ensures Expected(1, [WHOLE_STRAY]) == 1
  {
    FloorUnique(1 * 200, 200, 1);
    assert [WHOLE_STRAY][..0] == [];
    assert LargestShare(1, []) == 0;
  }

  /** The fact raises the other payment's row. */
  lemma StrayIsMisfiled()
    ensures var adjs := [FIRST, SECOND];
            && Crosses(adjs, WHOLE_STRAY, 1) && InsertPaymentAdjustment(adjs, WHOLE_STRAY).Ok?
            && !HasFact(InsertPaymentAdjustment(adjs, WHOLE_STRAY).value, 1)
            && MaxRefunded(InsertPaymentAdjustment(adjs, WHOLE_STRAY).value, 1) == 0
  {
    var adjs := [FIRST, SECOND];
    assert adjs[..1] == [FIRST] && adjs[..1][0] == FIRST;
    assert FindObject([FIRST], WHOLE_STRAY) == Some(0);
    assert FindObject(adjs, WHOLE_STRAY) == Some(0);
    var after := InsertPaymentAdjustment(adjs, WHOLE_STRAY).value;
    assert |after| == 2 && after[0].payment == 0 && after[1].payment == 0;
    MaxRefundedIsLeast(after, 1, 0);
  }

  lemma NothingForTheSecond()
    ensures Accepted(TWO_REFUNDS, 1) == []
    ensures 1 < |Run(EMPTY, TWO_REFUNDS).payments| && Reversed(Run(EMPTY, TWO_REFUNDS), 1) == 0
  {
    var first: Ownership := (provider, kind, objectId) => 0;
    HonestStaysApart(TWO_REFUNDS, first, 1);
    OthersOnly(TWO_REFUNDS, 1);
    ReversedIsExpected(TWO_REFUNDS, 1);
    RefundsAreFiled();
  }

  lemma {:induction false} OthersOnly(ops: seq<Op>, p: nat)
    requires forall i :: 0 <= i < |ops| && ops[i].PaymentStep? && ops[i].payment.Adjust? ==> ops[i].payment.fact.payment != p
    ensures Accepted(ops, p) == []
  {
    if ops != [] {
      OthersOnly(ops[..|ops| - 1], p);
    }
  }
}
