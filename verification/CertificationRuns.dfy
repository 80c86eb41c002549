/** What holds over every run of the campaign and decision routes, and the kickoff mails. */
module CertificationRuns {
  import opened Wrappers
  import opened Text
  import opened Certification

  // ----- one step -----

  /** The edges of the campaign state machine. */
  predicate Edge(a: CampaignStatus, b: CampaignStatus) {
    || a == b
    || (a == Draft && b == Running)
    || (a == Running && b == Closed)
    || ((a == Draft || a == Running) && b == Cancelled)
  }

  predicate IsDecision(req: Request) {
    req.AdminReq? || req.TokenReq? || req.PortalReq?
  }

  /** The next status of a campaign: only its own start, close or cancel request moves it. */
  ghost predicate Moves(a: Campaign, b: Campaign, c: int, st: State, req: Request) {
    && (b.status == Running && a.status == Draft
        <==> a.status == Draft && req.StartReq? && req.id == c && ListsActive(st, req.rows))
    && (b.status == Closed && a.status == Running <==> a.status == Running && req.CloseReq? && req.id == c)
    && (b.status == Cancelled && a.status in {Draft, Running}
        <==> a.status in {Draft, Running} && req.CancelReq? && req.id == c)
    && (a.status == Draft && b.status == Running ==> b.startedAt == Some(req.now))
    && (a.status == Running && b.status == Closed ==> b.closedAt == Some(req.now))
    && (a.status in {Draft, Running} && b.status == Cancelled ==> b.closedAt == Some(req.now))
  }

  lemma StepMovesCampaigns(st: State, req: Request, c: int)
    requires Valid(st) && c in st.campaigns && c in Handle(st, req).campaigns
    ensures var a, b := st.campaigns[c], Handle(st, req).campaigns[c];
            && Edge(a.status, b.status)
            && CampaignAfter(a, b)
            && Moves(a, b, c, st, req)
  {
    CampaignEdges(st, req, c);
    CampaignMoves(st, req, c);
    hide *;
  }

  lemma CampaignEdges(st: State, req: Request, c: int)
    requires Valid(st) && c in st.campaigns && c in Handle(st, req).campaigns
    ensures Edge(st.campaigns[c].status, Handle(st, req).campaigns[c].status)
    ensures CampaignAfter(st.campaigns[c], Handle(st, req).campaigns[c])
  {
    hide MatchesScope, KickoffReviews, KickoffCount;
    assert CampaignOk(st.campaigns[c]);
  }

  lemma CampaignMoves(st: State, req: Request, c: int)
    requires c in st.campaigns && c in Handle(st, req).campaigns
    ensures Moves(st.campaigns[c], Handle(st, req).campaigns[c], c, st, req)
  {
    hide ListsActive, KickoffReviews, KickoffCount;
  }

  /** Campaigns come only by a create with a due date ahead, as drafts, and go only by a delete, never while running. */
  lemma StepCampaignRows(st: State, req: Request, c: int)
    requires Valid(st)
    ensures var after := Handle(st, req);
            && (c in after.campaigns && c !in st.campaigns
                <==> req.CreateReq? && req.dueAt > req.now && c == st.nextCampaign)
            && (c in after.campaigns && c !in st.campaigns ==>
                  after.campaigns[c]
                  == Campaign(Trim(req.name), if req.description == "" then None else Some(req.description), req.scope,
                              req.dueAt, Draft, None, None))
            && (c in st.campaigns && c !in after.campaigns
                <==> c in st.campaigns && req.RemoveReq? && req.id == c && st.campaigns[c].status != Running)
  {
    hide KickoffReviews, KickoffCount, MatchesScope, ListsActive, Trim, CampaignOk, ReviewOk, Decidable, Revocable;
  }

  /** Reviews go only with their campaign or with their order. */
  lemma StepReviewRows(st: State, req: Request, r: int)
    requires Valid(st) && r in st.reviews
    ensures r !in Handle(st, req).reviews
       <==> var review := st.reviews[r];
            || (req.OrdersReq? && review.orderId !in req.orders)
            || (req.RemoveReq? && req.id == review.campaignId && st.campaigns[review.campaignId].status != Running)
  {
    assert ReviewOk(st, st.reviews[r]);
    if req.StartReq? {
      StartKeepsReviews(st, req.now, req.id, req.rows);
    }
    hide Valid, KickoffReviews, KickoffCount, MatchesScope, ListsActive, Trim, Lower, Decidable, Revocable;
  }

  /** An edit of a campaign is accepted whole or not at all; a running campaign takes a new due date only. */
  lemma StepEdits(st: State, now: int, c: int, edit: Edit)
    requires c in st.campaigns
    ensures var before, after := st.campaigns[c], Handle(st, UpdateReq(now, c, edit)).campaigns[c];
            var ok := && (before.status == Draft
                          || (before.status == Running && edit == Edit(None, None, None, edit.dueAt)))
                      && (edit.dueAt.None? || edit.dueAt.value > now);
            && (!ok ==> after == before)
            && (ok ==>
                  && (edit.name.Some? ==> after.name == Trim(edit.name.value))
                  && (edit.description == Some("") ==> after.description == None)
                  && (edit.description.Some? && edit.description != Some("") ==> after.description == edit.description)
                  && (edit.scope.Some? ==> after.scope == edit.scope.value)
                  && (edit.dueAt.Some? ==> after.dueAt == edit.dueAt.value)
                  && after == before.(name := if edit.name.None? then before.name else after.name,
                                      description := if edit.description.None? then before.description
                                                     else after.description,
                                      scope := if edit.scope.None? then before.scope else after.scope,
                                      dueAt := if edit.dueAt.None? then before.dueAt else after.dueAt))
  {
    hide Trim;
  }

  /** A request that may decide review `r`: by whom, and in which words. */
  ghost predicate Decides(st: State, req: Request, r: int)
    requires r in st.reviews
  {
    var review := st.reviews[r];
    && review.status == Pending
    && (review.campaignId in st.campaigns ==> st.campaigns[review.campaignId].status == Running)
    && match req
       case AdminReq(cid, rid, _, _, _, _) => rid == r && cid == review.campaignId
       case TokenReq(token, decision, _, _) => token == Some(r) && decision in {"confirm", "revoke"}
       case PortalReq(email, rid, decision, _, _, _) =>
         && rid == r && decision in {"confirm", "revoke"}
         && Trim(Lower(email)) != "" && Trim(Lower(email)) == Lower(review.reviewerEmail)
       case _ => false
  }

  /** How a decision is recorded on its review. */
  ghost predicate Recorded(a: Review, b: Review, req: Request)
    requires IsDecision(req)
  {
    var confirms := if req.AdminReq? then req.verdict == Confirm else req.decision == "confirm";
    var actor := if req.TokenReq? then "api:certification_token (reviewer:" + a.reviewerEmail + ")" else req.actor;
    && b.campaignId == a.campaignId && b.orderId == a.orderId && b.reviewerEmail == a.reviewerEmail
    && b.status == (if confirms then Confirmed else Revoked)
    && b.decidedAt == Some(req.now) && b.decidedBy == Some(actor)
    && b.comment == if Trim(req.comment) == "" then None else Some(Trim(req.comment))
  }

  /**
    A review changes only by a decision on it, and does so exactly when it is pending, its campaign is
    running and the request is entitled to decide it; the record is the decision's own.
   */
  lemma StepMovesReviews(st: State, req: Request, r: int)
    requires Valid(st) && r in st.reviews && r in Handle(st, req).reviews
    ensures var a, b := st.reviews[r], Handle(st, req).reviews[r];
            && (a != b <==> Decides(st, req, r))
            && (a != b ==> IsDecision(req) && Recorded(a, b, req))
            && (a != b ==> a.campaignId in st.campaigns && st.campaigns[a.campaignId].status == Running)
  {
    if IsDecision(req) {
      DecisionMovesReview(st, req, r);
    } else {
      OthersKeepReview(st, req, r);
    }
    hide *;
  }

  lemma DecisionMovesReview(st: State, req: Request, r: int)
    requires Valid(st) && r in st.reviews && r in Handle(st, req).reviews && IsDecision(req)
    ensures var a, b := st.reviews[r], Handle(st, req).reviews[r];
            && (a != b <==> Decides(st, req, r))
            && (a != b ==> Recorded(a, b, req))
            && (a != b ==> a.campaignId in st.campaigns && st.campaigns[a.campaignId].status == Running)
  {
    hide Trim, Lower, Revocable;
    assert ReviewOk(st, st.reviews[r]);
    hide Valid, ReviewOk;
  }

  lemma OthersKeepReview(st: State, req: Request, r: int)
    requires Valid(st) && r in st.reviews && r in Handle(st, req).reviews && !IsDecision(req)
    ensures st.reviews[r] == Handle(st, req).reviews[r] && !Decides(st, req, r)
  {
    if req.StartReq? {
      StartKeepsReviews(st, req.now, req.id, req.rows);
    }
    hide Valid, KickoffReviews, KickoffCount, MatchesScope, Trim, Lower, ListsActive;
  }

  lemma StartKeepsReviews(st: State, now: int, id: int, rows: seq<int>)
    requires Valid(st)
    ensures var after := Start(st, now, id, rows);
            && st.nextReview <= after.nextReview
            && (forall r :: r in st.reviews ==> r in after.reviews && after.reviews[r] == st.reviews[r])
            && (forall r :: r in after.reviews && r !in st.reviews ==> r >= st.nextReview)
  {
    if id in st.campaigns && st.campaigns[id].status == Draft && ListsActive(st, rows) {
      var scope := st.campaigns[id].scope;
      KickoffReviewFacts(st, id, scope, rows, st.nextReview);
      var made := KickoffReviews(st, id, scope, rows, st.nextReview);
      assert forall k :: k in made ==> k >= st.nextReview;
    }
  }

  // ----- runs -----

  /** Once started, name, description and scope are frozen; once closed or cancelled, everything is. */
  predicate CampaignAfter(a: Campaign, b: Campaign) {
    && (a.startedAt.Some? ==>
          b.startedAt == a.startedAt && b.name == a.name && b.description == a.description && b.scope == a.scope)
    && (a.status == Closed || a.status == Cancelled ==> b == a)
    && (a.status == Running ==> b.status != Draft)
  }

  /** A decided review never changes again; a pending one keeps its campaign, order and reviewer. */
  predicate ReviewAfter(a: Review, b: Review) {
    && b.campaignId == a.campaignId && b.orderId == a.orderId && b.reviewerEmail == a.reviewerEmail
    && (a.status != Pending ==> b == a)
  }

  /** `t` may follow `s`; ids are never used twice, so whatever is old in `t` was already in `s`. */
  ghost predicate Evolves(s: State, t: State) {
    && s.nextCampaign <= t.nextCampaign && s.nextReview <= t.nextReview && s.sent <= t.sent
    && (forall c :: c in t.campaigns && c < s.nextCampaign ==>
          c in s.campaigns && CampaignAfter(s.campaigns[c], t.campaigns[c]))
    && (forall r :: r in t.reviews && r < s.nextReview ==> r in s.reviews && ReviewAfter(s.reviews[r], t.reviews[r]))
  }

  lemma StepEvolves(st: State, req: Request)
    requires Valid(st)
    ensures Evolves(st, Handle(st, req))
  {
    var after := Handle(st, req);
    StepFrame(st, req);
    forall c | c in after.campaigns && c < st.nextCampaign
      ensures c in st.campaigns && CampaignAfter(st.campaigns[c], after.campaigns[c])
    {
      StepMovesCampaigns(st, req, c);
    }
    forall r | r in after.reviews && r < st.nextReview
      ensures r in st.reviews && ReviewAfter(st.reviews[r], after.reviews[r])
    {
      StepMovesReviews(st, req, r);
    }
  }

  lemma StepFrame(st: State, req: Request)
    requires Valid(st)
    ensures var after := Handle(st, req);
            && st.nextCampaign <= after.nextCampaign && st.nextReview <= after.nextReview && st.sent <= after.sent
            && (forall c :: c in after.campaigns && c < st.nextCampaign ==> c in st.campaigns)
            && (forall r :: r in after.reviews && r < st.nextReview ==> r in st.reviews)
  {
    if req.StartReq? {
      StartKeepsReviews(st, req.now, req.id, req.rows);
    }
    hide KickoffReviews, KickoffCount, MatchesScope, Trim, Lower;
  }

  lemma EvolvesTransitive(a: State, b: State, c: State)
    requires Evolves(a, b) && Evolves(b, c)
    ensures Evolves(a, c)
  {
  }

  /**
    Every run of requests, in any order and with the rest of the system changing orders in between,
    keeps the invariants, and nothing that was settled along the way is ever unsettled: a campaign moves
    only forward and is frozen once started, a review is decided at most once.
   */
  lemma {:induction false} RunsEvolve(st: State, reqs: seq<Request>)
    requires Valid(st)
    ensures Valid(RunAll(st, reqs)) && Evolves(st, RunAll(st, reqs))
    decreases |reqs|
  {
    if reqs == [] {
      forall c | c in st.campaigns ensures CampaignAfter(st.campaigns[c], st.campaigns[c]) {
        assert CampaignOk(st.campaigns[c]);
      }
    } else {
      hide Handle, Valid, Evolves;
      HandleKeepsValid(st, reqs[0]);
      StepEvolves(st, reqs[0]);
      RunsEvolve(Handle(st, reqs[0]), reqs[1..]);
      EvolvesTransitive(st, Handle(st, reqs[0]), RunAll(st, reqs));
    }
  }

  /** From an empty database every reachable state meets the invariants. */
  lemma ReachableIsValid(reqs: seq<Request>)
    ensures Valid(RunAll(EMPTY, reqs))
  {
    RunsEvolve(EMPTY, reqs);
  }

  // ----- decisions and delete tasks -----

  /** The review a request decides, with the verdict, if it is accepted. */
  function Decision(st: State, req: Request): Option<(int, Verdict)> {
    match req
    case AdminReq(cid, rid, verdict, _, _, _) => if AdminMay(st, cid, rid) then Some((rid, verdict)) else None
    case TokenReq(token, decision, _, _) =>
      if TokenMay(st, token, decision) then Some((token.value, FormVerdict(decision).value)) else None
    case PortalReq(email, rid, decision, _, _, _) =>
      if PortalMay(st, email, rid, decision) then Some((rid, FormVerdict(decision).value)) else None
    case _ => None
  }

  /** The revocations of an order a run contains, not counting those of an order already final. */
  ghost function Revocations(st: State, reqs: seq<Request>, order: int): nat
    decreases |reqs|
  {
    if reqs == [] then 0
    else (if Revokes(st, reqs[0], order) then 1 else 0) + Revocations(Handle(st, reqs[0]), reqs[1..], order)
  }

  /** The request is entitled to decide a review of the order, revokes it, and finds the order not yet final. */
  ghost predicate Revokes(st: State, req: Request, order: int) {
    && IsDecision(req) && (if req.AdminReq? then req.verdict == Revoke else req.decision == "revoke")
    && order in st.orders && st.orders[order].status !in {OrderRevoked, OrderCancelled, Rejected}
    && exists r :: r in st.reviews && st.reviews[r].orderId == order && Decides(st, req, r)
  }

  predicate RevokedByDecision(st: State, d: Option<(int, Verdict)>, order: int) {
    && d.Some? && d.value.0 in st.reviews && d.value.1 == Revoke && st.reviews[d.value.0].orderId == order
    && Revocable(st, order)
  }

  lemma RevokesMeans(st: State, req: Request, order: int)
    ensures Revokes(st, req, order) <==> RevokedByDecision(st, Decision(st, req), order)
  {
    hide Trim, Lower;
    var d := Decision(st, req);
    if d.Some? && d.value.0 in st.reviews {
      assert Decides(st, req, d.value.0);
    }
  }

  function Deletions(sent: seq<Task>, order: int): nat {
    if sent == [] then 0
    else (if sent[|sent| - 1] == Task(order, "reclaim") then 1 else 0) + Deletions(sent[..|sent| - 1], order)
  }

  /** An accepted decision changes the database exactly as `Decide` does, by whichever route it came. */
  lemma RoutesRefineDecide(st: State, req: Request)
    requires IsDecision(req)
    ensures var d, after := Decision(st, req), Handle(st, req);
            && (d.None? ==> after == st)
            && (d.Some? ==> Decidable(st, d.value.0))
            && (d.Some? ==>
                  exists actor, comment, now :: after == Decide(st, d.value.0, d.value.1, actor, comment, now))
  {
    match req
    case AdminReq(cid, rid, verdict, actor, comment, now) =>
      if AdminMay(st, cid, rid) {
        assert Handle(st, req) == Decide(st, rid, verdict, actor, comment, now);
      }
    case TokenReq(token, decision, comment, now) =>
      if TokenMay(st, token, decision) {
        assert Handle(st, req) == Decide(st, token.value, FormVerdict(decision).value, TokenActor(st, token.value),
                                         comment, now);
      }
    case PortalReq(email, rid, decision, actor, comment, now) =>
      if PortalMay(st, email, rid, decision) {
        assert Handle(st, req) == Decide(st, rid, FormVerdict(decision).value, actor, comment, now);
      }
    case _ =>
  }

  lemma StepDeletions(st: State, req: Request, order: int)
    ensures Deletions(Handle(st, req).sent, order)
         == Deletions(st.sent, order) + if Revokes(st, req, order) then 1 else 0
  {
    RevokesMeans(st, req, order);
    hide Revokes;
    if IsDecision(req) {
      RoutesRefineDecide(st, req);
      var d := Decision(st, req);
      if d.Some? {
        var actor, comment, now :| Handle(st, req) == Decide(st, d.value.0, d.value.1, actor, comment, now);
        DecideDeletions(st, d.value.0, d.value.1, actor, comment, now, order);
      }
    } else {
      hide KickoffReviews, KickoffCount, MatchesScope, Trim;
      assert Handle(st, req).sent == st.sent;
    }
  }

  lemma DecideDeletions(st: State, rid: int, verdict: Verdict, actor: string, comment: string, now: int, order: int)
    requires rid in st.reviews
    ensures Deletions(Decide(st, rid, verdict, actor, comment, now).sent, order) == Deletions(st.sent, order)
            + if verdict == Revoke && st.reviews[rid].orderId == order && Revocable(st, order) then 1 else 0
  {
    var task := Task(st.reviews[rid].orderId, "reclaim");
    assert (st.sent + [task])[..|st.sent|] == st.sent;
  }

  /**
    Over a whole run the delete tasks sent for an order are exactly its accepted revocations: none is lost,
    none is sent twice, and no confirmation or campaign route ever sends one.
   */
  lemma {:induction false} DeletionsAreRevocations(st: State, reqs: seq<Request>, order: int)
    ensures Deletions(RunAll(st, reqs).sent, order) == Deletions(st.sent, order) + Revocations(st, reqs, order)
    decreases |reqs|
  {
    if reqs != [] {
      hide Handle, Revokes, Deletions;
      StepDeletions(st, reqs[0], order);
      DeletionsAreRevocations(Handle(st, reqs[0]), reqs[1..], order);
    }
  }

  /** Outside `OrdersReq`, only a revocation touches orders, and it leaves the order revoking with action delete. */
  lemma OnlyRevocationsTouchOrders(st: State, req: Request, order: int)
    requires !req.OrdersReq?
    ensures var after := Handle(st, req);
            && after.orders.Keys == st.orders.Keys
            && (order in st.orders ==>
                  after.orders[order]
                  == if Revokes(st, req, order) then st.orders[order].(status := Revoking, action := Delete)
                     else st.orders[order])
  {
    RevokesMeans(st, req, order);
    hide Revokes;
    if IsDecision(req) {
      RoutesRefineDecide(st, req);
      var d := Decision(st, req);
      if d.Some? {
        var actor, comment, now :| Handle(st, req) == Decide(st, d.value.0, d.value.1, actor, comment, now);
      }
    } else {
      hide KickoffReviews, KickoffCount, MatchesScope, Trim;
    }
  }

  // ----- kickoff mails -----

  datatype Group = Group(reviewer: string, ids: seq<int>)
  datatype Mail = Mail(reviewer: string, count: nat, linkReview: int)

  function AddToGroup(groups: seq<Group>, reviewer: string, id: int): seq<Group> {
    if groups == [] then [Group(reviewer, [id])]
    else if groups[0].reviewer == reviewer then [Group(reviewer, groups[0].ids + [id])] + groups[1..]
    else [groups[0]] + AddToGroup(groups[1..], reviewer, id)
  }

  function Grouped(groups: seq<Group>, reviews: map<int, Review>, ids: seq<int>): seq<Group>
    requires forall i :: 0 <= i < |ids| ==> ids[i] in reviews
    decreases |ids|
  {
    if ids == [] then groups
    else Grouped(AddToGroup(groups, reviews[ids[0]].reviewerEmail, ids[0]), reviews, ids[1..])
  }

  function MailTo(g: Group): Mail {
    Mail(g.reviewer, |g.ids|, if g.ids == [] then 0 else g.ids[0])
  }

  function Mails(groups: seq<Group>): seq<Mail> {
    if groups == [] then []
    else [MailTo(groups[0])] + Mails(groups[1..])
  }

  /** `ids` are the campaign's reviews as the database returned them. */
  method DispatchKickoff(reviews: map<int, Review>, ids: seq<int>) returns (mails: seq<Mail>)
    requires forall i :: 0 <= i < |ids| ==> ids[i] in reviews
    ensures mails == Mails(Grouped([], reviews, ids))
  {
    var groups: seq<Group> := [];
    for k := 0 to |ids|
      invariant Grouped([], reviews, ids) == Grouped(groups, reviews, ids[k..])
    {
      groups := AddToGroup(groups, reviews[ids[k]].reviewerEmail, ids[k]);
    }
    mails := [];
    for k := 0 to |groups|
      invariant Mails(groups) == mails + Mails(groups[k..])
    {
      assert groups[k..][1..] == groups[k + 1..];
      var link := if groups[k].ids == [] then 0 else groups[k].ids[0];
      mails := mails + [Mail(groups[k].reviewer, |groups[k].ids|, link)];
    }
  }

  function CountFor(reviews: map<int, Review>, ids: seq<int>, reviewer: string): nat
    requires forall i :: 0 <= i < |ids| ==> ids[i] in reviews
  {
    if ids == [] then 0
    else (if reviews[ids[0]].reviewerEmail == reviewer then 1 else 0) + CountFor(reviews, ids[1..], reviewer)
  }

  function GroupSize(groups: seq<Group>, reviewer: string): nat {
    if groups == [] then 0
    else (if groups[0].reviewer == reviewer then |groups[0].ids| else 0) + GroupSize(groups[1..], reviewer)
  }

  function TotalSize(groups: seq<Group>): nat {
    if groups == [] then 0 else |groups[0].ids| + TotalSize(groups[1..])
  }

  function MailTotal(mails: seq<Mail>): nat {
    if mails == [] then 0 else mails[0].count + MailTotal(mails[1..])
  }

  /** One group per reviewer, each group non-empty and holding that reviewer's reviews only. */
  predicate WellGrouped(groups: seq<Group>, reviews: map<int, Review>) {
    && (forall i, j :: 0 <= i < j < |groups| ==> groups[i].reviewer != groups[j].reviewer)
    && (forall g :: g in groups ==> GroupOk(g, reviews))
  }

  predicate GroupOk(g: Group, reviews: map<int, Review>) {
    g.ids != [] && forall k :: 0 <= k < |g.ids| ==> g.ids[k] in reviews && reviews[g.ids[k]].reviewerEmail == g.reviewer
  }

  predicate HasGroup(groups: seq<Group>, reviewer: string) {
    exists i :: 0 <= i < |groups| && groups[i].reviewer == reviewer
  }

  lemma {:induction false} AddToGroupFacts(groups: seq<Group>, reviews: map<int, Review>, reviewer: string,
                                           id: int, who: string)
    requires WellGrouped(groups, reviews) && id in reviews && reviews[id].reviewerEmail == reviewer
    ensures var after := AddToGroup(groups, reviewer, id);
            && (HasGroup(after, who) <==> HasGroup(groups, who) || who == reviewer)
            && GroupSize(after, who) == GroupSize(groups, who) + (if who == reviewer then 1 else 0)
            && TotalSize(after) == TotalSize(groups) + 1
  {
    var after := AddToGroup(groups, reviewer, id);
    if groups == [] {
      assert after[0].reviewer == reviewer;
    } else {
      HasGroupCons(groups[0], groups[1..], who);
      HasGroupCons(after[0], after[1..], who);
      assert groups == [groups[0]] + groups[1..] && after == [after[0]] + after[1..];
      if groups[0].reviewer == reviewer {
        assert after[1..] == groups[1..];
      } else {
        assert forall g :: g in groups[1..] ==> g in groups;
        AddToGroupFacts(groups[1..], reviews, reviewer, id, who);
        assert after[1..] == AddToGroup(groups[1..], reviewer, id);
      }
    }
  }

  lemma HasGroupCons(g: Group, rest: seq<Group>, who: string)
    ensures HasGroup([g] + rest, who) <==> g.reviewer == who || HasGroup(rest, who)
  {
    var all := [g] + rest;
    if HasGroup(rest, who) {
      var i :| 0 <= i < |rest| && rest[i].reviewer == who;
      assert all[i + 1].reviewer == who;
    }
    if g.reviewer == who {
      assert all[0].reviewer == who;
    }
  }

  lemma {:induction false} AddToGroupKeepsGrouping(groups: seq<Group>, reviews: map<int, Review>, reviewer: string,
                                                   id: int)
    requires WellGrouped(groups, reviews) && id in reviews && reviews[id].reviewerEmail == reviewer
    ensures WellGrouped(AddToGroup(groups, reviewer, id), reviews)
  {
    if groups != [] {
      assert GroupOk(groups[0], reviews);
      assert forall g :: g in groups[1..] ==> g in groups;
      if groups[0].reviewer != reviewer {
        var rest := AddToGroup(groups[1..], reviewer, id);
        AddToGroupKeepsGrouping(groups[1..], reviews, reviewer, id);
        AddToGroupFacts(groups[1..], reviews, reviewer, id, groups[0].reviewer);
        assert !HasGroup(groups[1..], groups[0].reviewer);
        forall j | 0 <= j < |rest| ensures rest[j].reviewer != groups[0].reviewer {
          if rest[j].reviewer == groups[0].reviewer {
            assert HasGroup(rest, groups[0].reviewer);
          }
        }
      }
    }
  }

  lemma {:induction false} GroupedFacts(groups: seq<Group>, reviews: map<int, Review>, ids: seq<int>, who: string)
    requires WellGrouped(groups, reviews) && forall i :: 0 <= i < |ids| ==> ids[i] in reviews
    ensures var after := Grouped(groups, reviews, ids);
            && WellGrouped(after, reviews)
            && GroupSize(after, who) == GroupSize(groups, who) + CountFor(reviews, ids, who)
            && TotalSize(after) == TotalSize(groups) + |ids|
    decreases |ids|
  {
    if ids != [] {
      var reviewer := reviews[ids[0]].reviewerEmail;
      AddToGroupFacts(groups, reviews, reviewer, ids[0], who);
      AddToGroupKeepsGrouping(groups, reviews, reviewer, ids[0]);
      hide AddToGroup, WellGrouped, GroupSize, TotalSize;
      GroupedFacts(AddToGroup(groups, reviewer, ids[0]), reviews, ids[1..], who);
    }
  }

  lemma {:induction false} MailsFacts(groups: seq<Group>, reviews: map<int, Review>, who: string)
    requires WellGrouped(groups, reviews)
    ensures var mails := Mails(groups);
            && |mails| == |groups| && MailTotal(mails) == TotalSize(groups)
            && (forall i :: 0 <= i < |mails| ==>
                  mails[i] == MailTo(groups[i]))
  {
    if groups != [] {
      assert forall g :: g in groups[1..] ==> g in groups;
      MailsFacts(groups[1..], reviews, who);
      assert Mails(groups)[1..] == Mails(groups[1..]);
    }
  }

  lemma {:induction false} GroupSizeOf(groups: seq<Group>, i: nat)
    requires i < |groups| && forall a, b :: 0 <= a < b < |groups| ==> groups[a].reviewer != groups[b].reviewer
    ensures GroupSize(groups, groups[i].reviewer) == |groups[i].ids|
  {
    if i == 0 {
      NoGroupNoSize(groups[1..], groups[0].reviewer);
    } else {
      GroupSizeOf(groups[1..], i - 1);
    }
  }

  lemma {:induction false} NoGroupNoSize(groups: seq<Group>, who: string)
    requires forall i :: 0 <= i < |groups| ==> groups[i].reviewer != who
    ensures GroupSize(groups, who) == 0
  {
    if groups != [] {
      NoGroupNoSize(groups[1..], who);
    }
  }

  /**
    The mails partition the reviews: no reviewer is mailed twice, every mail counts exactly that
    reviewer's reviews (at least one) and links to one of them, and the counts sum to all reviews.
   */
  lemma MailsPartitionReviews(reviews: map<int, Review>, ids: seq<int>)
    requires forall i :: 0 <= i < |ids| ==> ids[i] in reviews
    ensures var mails := Mails(Grouped([], reviews, ids));
            && MailTotal(mails) == |ids|
            && (forall i, j :: 0 <= i < j < |mails| ==> mails[i].reviewer != mails[j].reviewer)
            && (forall i :: 0 <= i < |mails| ==>
                  && mails[i].count == CountFor(reviews, ids, mails[i].reviewer) > 0
                  && mails[i].linkReview in reviews && reviews[mails[i].linkReview].reviewerEmail == mails[i].reviewer)
  {
    var groups := Grouped([], reviews, ids);
    GroupedFacts([], reviews, ids, "");
    MailsFacts(groups, reviews, "");
    forall i | 0 <= i < |groups|
      ensures |groups[i].ids| == CountFor(reviews, ids, groups[i].reviewer) > 0
      ensures groups[i].ids[0] in reviews && reviews[groups[i].ids[0]].reviewerEmail == groups[i].reviewer
    {
      GroupedFacts([], reviews, ids, groups[i].reviewer);
      GroupSizeOf(groups, i);
      assert GroupOk(groups[i], reviews);
    }
  }

  lemma DraftHasNoReviews(st: State, id: int)
    requires Valid(st) && id in st.campaigns && st.campaigns[id].status == Draft
    ensures forall r :: r in st.reviews ==> st.reviews[r].campaignId != id
  {
    assert CampaignOk(st.campaigns[id]);
    assert forall r :: r in st.reviews ==> ReviewOk(st, st.reviews[r]);
  }

  /** Right after kickoff the mails count exactly the reviews it created. */
  lemma KickoffMailsCountCreated(st: State, now: int, id: int, rows: seq<int>, ids: seq<int>)
    requires Valid(st) && ListsActive(st, rows) && id in st.campaigns && st.campaigns[id].status == Draft
    requires forall i, j :: 0 <= i < j < |ids| ==> ids[i] != ids[j]
    requires var after := Start(st, now, id, rows);
             && (forall i :: 0 <= i < |ids| ==> ids[i] in after.reviews && after.reviews[ids[i]].campaignId == id)
             && (forall r :: r in after.reviews && after.reviews[r].campaignId == id ==> r in ids)
    ensures MailTotal(Mails(Grouped([], Start(st, now, id, rows).reviews, ids)))
            == KickoffCount(st, st.campaigns[id].scope, rows)
  {
    var scope := st.campaigns[id].scope;
    var after := Start(st, now, id, rows);
    KickoffReviewFacts(st, id, scope, rows, st.nextReview);
    var made := KickoffReviews(st, id, scope, rows, st.nextReview);
    MailsPartitionReviews(after.reviews, ids);
    assert after.reviews == st.reviews + made;
    DraftHasNoReviews(st, id);
    hide MatchesScope, ResolveReviewer, Lower, KickoffReviews, Start, Mails, Grouped;
    forall r ensures r in made <==> r in ids {
      if r in made {
        assert after.reviews[r] == made[r] == FreshReview(st, id, made[r].orderId);
      }
    }
    DistinctLength(ids, made.Keys);
  }

  lemma {:induction false} DistinctLength(ids: seq<int>, keys: set<int>)
    requires forall i, j :: 0 <= i < j < |ids| ==> ids[i] != ids[j]
    requires forall k :: k in keys <==> k in ids
    ensures |ids| == |keys|
    decreases |ids|
  {
    if ids == [] {
      assert forall k :: k !in keys;
    } else {
      assert ids[0] !in ids[1..];
      assert forall k :: k in ids <==> k == ids[0] || k in ids[1..];
      DistinctLength(ids[1..], keys - {ids[0]});
    }
  }
}
