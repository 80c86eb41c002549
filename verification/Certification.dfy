/**
  Access certification campaigns: the campaign and review state machines, the kickoff that materialises
  reviews, and the three routes by which a review is decided.
 */
module Certification {
  import opened Wrappers
  import opened Text

  datatype CampaignStatus = Draft | Running | Closed | Cancelled
  datatype ReviewStatus = Pending | Confirmed | Revoked | AutoRevoked
  datatype OrderStatus =
    | OrderPending | PendingApproval | Scheduled | Processing | Provisioning | Provisioned | Delivered
    | Revoking | OrderRevoked | Failed | Expired | OrderCancelled | Rejected
  datatype OrderAction = Provision | Modify | Delete

  datatype Scope = Scope(assetTypeIds: seq<int>, costCenters: seq<string>, departments: seq<string>,
                         requesterEmails: seq<string>)

  datatype Campaign = Campaign(name: string, description: Option<string>, scope: Scope, dueAt: int,
                               status: CampaignStatus, startedAt: Option<int>, closedAt: Option<int>)
  datatype Review = Review(campaignId: int, orderId: int, reviewerEmail: string, status: ReviewStatus,
                           decidedAt: Option<int>, decidedBy: Option<string>, comment: Option<string>)
  /** `managerEmail` is the approver of the order's first manager approval row. */
  datatype Order = Order(userEmail: string, ownerEmail: string, managerEmail: string, typeId: int, department: string,
                         status: OrderStatus, action: OrderAction)
  datatype Task = Task(orderId: int, queue: string)

  datatype State = State(campaigns: map<int, Campaign>, reviews: map<int, Review>, orders: map<int, Order>,
                         costCenters: map<int, string>, nextCampaign: int, nextReview: int, sent: seq<Task>)

  datatype Response = Accepted | NotFound | Conflict | BadRequest | Forbidden | Gone | AlreadyDecided

  predicate IsActive(s: OrderStatus) {
    || s.OrderPending? || s.PendingApproval? || s.Scheduled? || s.Processing? || s.Provisioning?
    || s.Provisioned? || s.Delivered?
  }

  // ----- scope and reviewer -----

  function CostCenterOf(st: State, o: Order): string {
    var cc := if o.typeId in st.costCenters then st.costCenters[o.typeId] else "";
    if cc == "" then "(unassigned)" else cc
  }

  /** AND across the lists, OR within; an empty list is a wildcard. */
  predicate MatchesScope(st: State, scope: Scope, o: Order) {
    && (scope.assetTypeIds == [] || o.typeId in scope.assetTypeIds)
    && (scope.costCenters == [] || CostCenterOf(st, o) in scope.costCenters)
    && (scope.departments == [] || o.department in scope.departments)
    && (scope.requesterEmails == []
        || exists e :: e in scope.requesterEmails && !Blank(e) && Lower(Trim(e)) == Lower(o.userEmail))
  }

  lemma ScopeReadsCostCenters(st: State, st': State, scope: Scope, o: Order)
    requires st.costCenters == st'.costCenters
    ensures MatchesScope(st, scope, o) <==> MatchesScope(st', scope, o)
  {
  }

  function ResolveReviewer(o: Order): string {
    if o.managerEmail != "" then o.managerEmail
    else if o.ownerEmail != "" then o.ownerEmail
    else o.userEmail
  }

  /** One list is wider when it is the wildcard, or when both are real lists and it has every entry. */
  predicate WiderList<T(==)>(narrow: seq<T>, wide: seq<T>) {
    wide == [] || (narrow != [] && forall x :: x in narrow ==> x in wide)
  }

  predicate WiderScope(narrow: Scope, wide: Scope) {
    && WiderList(narrow.assetTypeIds, wide.assetTypeIds)
    && WiderList(narrow.costCenters, wide.costCenters)
    && WiderList(narrow.departments, wide.departments)
    && WiderList(narrow.requesterEmails, wide.requesterEmails)
  }

  /** Widening any list of a scope never loses an order. */
  lemma WideningKeepsOrders(st: State, narrow: Scope, wide: Scope, o: Order)
    requires WiderScope(narrow, wide) && MatchesScope(st, narrow, o)
    ensures MatchesScope(st, wide, o)
  {
    if wide.requesterEmails != [] {
      var e :| e in narrow.requesterEmails && !Blank(e) && Lower(Trim(e)) == Lower(o.userEmail);
      assert e in wide.requesterEmails;
    }
  }

  /** The lists of a scope restrict independently of each other. */
  lemma ScopeIsConjunction(st: State, scope: Scope, o: Order)
    ensures MatchesScope(st, Scope([], [], [], []), o)
    ensures MatchesScope(st, scope, o)
       <==> && MatchesScope(st, Scope(scope.assetTypeIds, [], [], []), o)
            && MatchesScope(st, Scope([], scope.costCenters, [], []), o)
            && MatchesScope(st, Scope([], [], scope.departments, []), o)
            && MatchesScope(st, Scope([], [], [], scope.requesterEmails), o)
  {
  }

  /** Two parts of one list admit what either admits. */
  lemma ScopeListIsDisjunction(st: State, a: Scope, b: Scope, o: Order)
    requires a.assetTypeIds != [] && b.assetTypeIds != [] && a.costCenters != [] && b.costCenters != []
    requires a.departments != [] && b.departments != [] && a.requesterEmails != [] && b.requesterEmails != []
    ensures MatchesScope(st, Scope(a.assetTypeIds + b.assetTypeIds, [], [], []), o)
       <==> || MatchesScope(st, Scope(a.assetTypeIds, [], [], []), o)
            || MatchesScope(st, Scope(b.assetTypeIds, [], [], []), o)
    ensures MatchesScope(st, Scope([], a.costCenters + b.costCenters, [], []), o)
       <==> || MatchesScope(st, Scope([], a.costCenters, [], []), o)
            || MatchesScope(st, Scope([], b.costCenters, [], []), o)
    ensures MatchesScope(st, Scope([], [], a.departments + b.departments, []), o)
       <==> || MatchesScope(st, Scope([], [], a.departments, []), o)
            || MatchesScope(st, Scope([], [], b.departments, []), o)
    ensures MatchesScope(st, Scope([], [], [], a.requesterEmails + b.requesterEmails), o)
       <==> || MatchesScope(st, Scope([], [], [], a.requesterEmails), o)
            || MatchesScope(st, Scope([], [], [], b.requesterEmails), o)
  {
    hide Blank, Lower, Trim;
  }

  /** What a list with one entry asks of an order. */
  lemma ScopeEntryMeans(st: State, o: Order, id: int, s: string)
    ensures MatchesScope(st, Scope([id], [], [], []), o) <==> o.typeId == id
    ensures MatchesScope(st, Scope([], [s], [], []), o)
       <==> if o.typeId in st.costCenters && st.costCenters[o.typeId] != "" then s == st.costCenters[o.typeId]
            else s == "(unassigned)"
    ensures MatchesScope(st, Scope([], [], [s], []), o) <==> o.department == s
    ensures MatchesScope(st, Scope([], [], [], [s]), o) <==> Trim(s) != "" && Lower(Trim(s)) == Lower(o.userEmail)
  {
    hide Lower, Trim;
    assert s in [s];
  }

  // ----- kickoff -----

  predicate InKickoff(st: State, scope: Scope, orderId: int) {
    && orderId in st.orders && IsActive(st.orders[orderId].status)
    && MatchesScope(st, scope, st.orders[orderId]) && ResolveReviewer(st.orders[orderId]) != ""
  }

  function FreshReview(st: State, cid: int, orderId: int): Review
    requires orderId in st.orders
  {
    Review(cid, orderId, Lower(ResolveReviewer(st.orders[orderId])), Pending, None, None, None)
  }

  /** The review rows for the orders `rows`, in the order the database returned them. */
  function KickoffReviews(st: State, cid: int, scope: Scope, rows: seq<int>, next: int): map<int, Review>
    decreases |rows|
  {
    if rows == [] then map[]
    else if InKickoff(st, scope, rows[0]) then
      map[next := FreshReview(st, cid, rows[0])] + KickoffReviews(st, cid, scope, rows[1..], next + 1)
    else KickoffReviews(st, cid, scope, rows[1..], next)
  }

  function KickoffCount(st: State, scope: Scope, rows: seq<int>): nat
    decreases |rows|
  {
    if rows == [] then 0
    else (if InKickoff(st, scope, rows[0]) then 1 else 0) + KickoffCount(st, scope, rows[1..])
  }

  lemma KickoffStep(st: State, cid: int, scope: Scope, rows: seq<int>, k: nat, done: map<int, Review>, next: int)
    requires k < |rows|
    ensures done + KickoffReviews(st, cid, scope, rows[k..], next)
         == if InKickoff(st, scope, rows[k])
            then done[next := FreshReview(st, cid, rows[k])] + KickoffReviews(st, cid, scope, rows[k + 1..], next + 1)
            else done + KickoffReviews(st, cid, scope, rows[k + 1..], next)
    ensures KickoffCount(st, scope, rows[k..])
         == (if InKickoff(st, scope, rows[k]) then 1 else 0) + KickoffCount(st, scope, rows[k + 1..])
  {
    hide InKickoff, FreshReview;
    assert rows[k..][0] == rows[k] && rows[k..][1..] == rows[k + 1..];
  }

  lemma KickoffEnd(st: State, cid: int, scope: Scope, rows: seq<int>, next: int)
    ensures KickoffReviews(st, cid, scope, rows[|rows|..], next) == map[]
            && KickoffCount(st, scope, rows[|rows|..]) == 0
  {
  }

  /** `rows` is a possible result of the query for active orders. */
  predicate ListsActive(st: State, rows: seq<int>) {
    && (forall i, j :: 0 <= i < j < |rows| ==> rows[i] != rows[j])
    && (forall k :: 0 <= k < |rows| ==> rows[k] in st.orders && IsActive(st.orders[rows[k]].status))
    && (forall i :: i in st.orders && IsActive(st.orders[i].status) ==> i in rows)
  }

  // ----- what each route does to the database -----

  function Create(st: State, now: int, name: string, description: string, scope: Scope, dueAt: int): State {
    if dueAt <= now then st
    else st.(campaigns := st.campaigns[st.nextCampaign :=
                            Campaign(Trim(name), NonEmpty(description), scope, dueAt, Draft, None, None)],
             nextCampaign := st.nextCampaign + 1)
  }

  function NonEmpty(s: string): Option<string> {
    if s == "" then None else Some(s)
  }

  datatype Edit = Edit(name: Option<string>, description: Option<string>, scope: Option<Scope>, dueAt: Option<int>)

  predicate EditAllowed(c: Campaign, edit: Edit, now: int) {
    && (c.status == Draft || (c.status == Running && edit.name.None? && edit.description.None? && edit.scope.None?))
    && (edit.dueAt.Some? ==> edit.dueAt.value > now)
  }

  function Edited(c: Campaign, edit: Edit): Campaign {
    c.(name := if edit.name.Some? then Trim(edit.name.value) else c.name,
       description := if edit.description.Some? then NonEmpty(edit.description.value) else c.description,
       scope := edit.scope.GetOr(c.scope),
       dueAt := edit.dueAt.GetOr(c.dueAt))
  }

  function Update(st: State, now: int, id: int, edit: Edit): State {
    if id in st.campaigns && EditAllowed(st.campaigns[id], edit, now)
    then st.(campaigns := st.campaigns[id := Edited(st.campaigns[id], edit)])
    else st
  }

  /** Deleting a campaign takes its reviews along. */
  function Remove(st: State, id: int): State {
    if id in st.campaigns && st.campaigns[id].status != Running
    then st.(campaigns := st.campaigns - {id},
             reviews := map r | r in st.reviews && st.reviews[r].campaignId != id :: st.reviews[r])
    else st
  }

  function Start(st: State, now: int, id: int, rows: seq<int>): State {
    if id in st.campaigns && st.campaigns[id].status == Draft && ListsActive(st, rows) then
      var c := st.campaigns[id];
      st.(reviews := st.reviews + KickoffReviews(st, id, c.scope, rows, st.nextReview),
          nextReview := st.nextReview + KickoffCount(st, c.scope, rows),
          campaigns := st.campaigns[id := c.(status := Running, startedAt := Some(now))])
    else st
  }

  function Close(st: State, now: int, id: int): State {
    if id in st.campaigns && st.campaigns[id].status == Running
    then st.(campaigns := st.campaigns[id := st.campaigns[id].(status := Closed, closedAt := Some(now))])
    else st
  }

  function Cancel(st: State, now: int, id: int): State {
    if id in st.campaigns && (st.campaigns[id].status == Draft || st.campaigns[id].status == Running)
    then st.(campaigns := st.campaigns[id := st.campaigns[id].(status := Cancelled, closedAt := Some(now))])
    else st
  }

  // ----- decisions -----

  /** The review is open and so is its campaign. */
  predicate Decidable(st: State, rid: int) {
    && rid in st.reviews && st.reviews[rid].status == Pending
    && (st.reviews[rid].campaignId in st.campaigns ==> st.campaigns[st.reviews[rid].campaignId].status == Running)
  }

  /** An order a revocation still has to act on. */
  predicate Revocable(st: State, orderId: int) {
    && orderId in st.orders
    && !st.orders[orderId].status.OrderRevoked? && !st.orders[orderId].status.OrderCancelled?
    && !st.orders[orderId].status.Rejected?
  }

  datatype Verdict = Confirm | Revoke

  /** The one step all three routes take. */
  function Decide(st: State, rid: int, verdict: Verdict, actor: string, comment: string, now: int): State
    requires rid in st.reviews
  {
    var r := st.reviews[rid].(status := if verdict == Confirm then Confirmed else Revoked,
                              decidedAt := Some(now), decidedBy := Some(actor), comment := NonEmpty(Trim(comment)));
    var decided := st.(reviews := st.reviews[rid := r]);
    if verdict == Revoke && Revocable(st, r.orderId)
    then decided.(orders := st.orders[r.orderId := st.orders[r.orderId].(status := Revoking, action := Delete)],
                  sent := st.sent + [Task(r.orderId, "reclaim")])
    else decided
  }

  predicate AdminMay(st: State, campaignId: int, rid: int) {
    Decidable(st, rid) && st.reviews[rid].campaignId == campaignId
  }

  function FormVerdict(decision: string): Option<Verdict> {
    if decision == "confirm" then Some(Confirm) else if decision == "revoke" then Some(Revoke) else None
  }

  /** `token` is the review id a valid signed token names. */
  predicate TokenMay(st: State, token: Option<int>, decision: string) {
    token.Some? && Decidable(st, token.value) && FormVerdict(decision).Some?
  }

  predicate PortalMay(st: State, sessionEmail: string, rid: int, decision: string) {
    && Decidable(st, rid) && FormVerdict(decision).Some?
    && Trim(Lower(sessionEmail)) != "" && Lower(st.reviews[rid].reviewerEmail) == Trim(Lower(sessionEmail))
  }

  function TokenActor(st: State, rid: int): string
    requires rid in st.reviews
  {
    "api:certification_token (reviewer:" + st.reviews[rid].reviewerEmail + ")"
  }

  // ----- the routes, as they change rows in place -----

  class Service {
    var campaigns: map<int, Campaign>
    var reviews: map<int, Review>
    var orders: map<int, Order>
    var costCenters: map<int, string>
    var nextCampaign: int
    var nextReview: int
    var sent: seq<Task>

    function Db(): State
      reads this
    {
      State(campaigns, reviews, orders, costCenters, nextCampaign, nextReview, sent)
    }

    constructor (st: State)
      ensures Db() == st
    {
      campaigns, reviews, orders, costCenters := st.campaigns, st.reviews, st.orders, st.costCenters;
      nextCampaign, nextReview, sent := st.nextCampaign, st.nextReview, st.sent;
    }

    method CreateCampaign(now: int, name: string, description: string, scope: Scope, dueAt: int)
      returns (resp: Response)
      modifies this
      ensures Db() == Create(old(Db()), now, name, description, scope, dueAt)
      ensures resp == if dueAt <= now then BadRequest else Accepted
    {
      if dueAt <= now {
        return BadRequest;
      }
      var campaign := Campaign(Trim(name), NonEmpty(description), scope, dueAt, Draft, None, None);
      campaigns := campaigns[nextCampaign := campaign];
      nextCampaign := nextCampaign + 1;
      resp := Accepted;
    }

    /** Fields are assigned before the last check; a rejection rolls them back. */
    method UpdateCampaign(now: int, id: int, edit: Edit) returns (resp: Response)
      modifies this
      ensures Db() == Update(old(Db()), now, id, edit)
      ensures resp == Accepted <==> id in old(campaigns) && EditAllowed(old(campaigns)[id], edit, now)
    {
      if id !in campaigns {
        return NotFound;
      }
      var committed := campaigns;
      var c := campaigns[id];
      if c.status != Draft && c.status != Running {
        return Conflict;
      }
      if c.status == Running {
        if edit.name.Some? || edit.scope.Some? || edit.description.Some? {
          return Conflict;
        }
      }
      if edit.name.Some? {
        campaigns := campaigns[id := campaigns[id].(name := Trim(edit.name.value))];
      }
      if edit.description.Some? {
        campaigns := campaigns[id := campaigns[id].(description := NonEmpty(edit.description.value))];
      }
      if edit.scope.Some? {
        campaigns := campaigns[id := campaigns[id].(scope := edit.scope.value)];
      }
      if edit.dueAt.Some? {
        if edit.dueAt.value <= now {
          campaigns := committed;
          return BadRequest;
        }
        campaigns := campaigns[id := campaigns[id].(dueAt := edit.dueAt.value)];
      }
      assert campaigns == committed[id := Edited(c, edit)];
      resp := Accepted;
    }

    method DeleteCampaign(id: int) returns (resp: Response)
      modifies this
      ensures Db() == Remove(old(Db()), id)
      ensures resp == Accepted <==> id in old(campaigns) && old(campaigns)[id].status != Running
    {
      if id !in campaigns {
        return NotFound;
      }
      if campaigns[id].status == Running {
        return Conflict;
      }
      campaigns := campaigns - {id};
      reviews := map r | r in reviews && reviews[r].campaignId != id :: reviews[r];
      resp := Accepted;
    }

    /** The kickoff loop over the rows the database returned. */
    method CreateReviews(id: int, scope: Scope, rows: seq<int>) returns (created: nat)
      requires forall i :: 0 <= i < |rows| ==> rows[i] in orders && IsActive(orders[rows[i]].status)
      modifies this`reviews, this`nextReview
      ensures reviews == old(reviews) + KickoffReviews(old(Db()), id, scope, rows, old(nextReview))
      ensures nextReview == old(nextReview) + created
      ensures created == KickoffCount(old(Db()), scope, rows)
    {
      hide KickoffReviews, KickoffCount, MatchesScope, Lower;
      ghost var st := Db();
      ghost var all, count := KickoffReviews(st, id, scope, rows, st.nextReview), KickoffCount(st, scope, rows);
      created := 0;
      assert rows[0..] == rows;
      for k := 0 to |rows|
        invariant nextReview == st.nextReview + created
        invariant st.reviews + all == reviews + KickoffReviews(st, id, scope, rows[k..], nextReview)
        invariant count == created + KickoffCount(st, scope, rows[k..])
      {
        KickoffStep(st, id, scope, rows, k, reviews, nextReview);
        var order := orders[rows[k]];
        ScopeReadsCostCenters(st, Db(), scope, order);
        if !MatchesScope(Db(), scope, order) {
          continue;
        }
        var reviewer := ResolveReviewer(order);
        if reviewer == "" {
          continue;
        }
        reviews := reviews[nextReview := Review(id, rows[k], Lower(reviewer), Pending, None, None, None)];
        nextReview := nextReview + 1;
        created := created + 1;
      }
      KickoffEnd(st, id, scope, rows, nextReview);
    }

    method StartCampaign(now: int, id: int, rows: seq<int>) returns (resp: Response, created: nat)
      requires ListsActive(Db(), rows)
      modifies this
      ensures Db() == Start(old(Db()), now, id, rows)
      ensures resp == Accepted <==> id in old(campaigns) && old(campaigns)[id].status == Draft
      ensures created == nextReview - old(nextReview)
    {
      if id !in campaigns {
        return NotFound, 0;
      }
      if campaigns[id].status != Draft {
        return Conflict, 0;
      }
      created := CreateReviews(id, campaigns[id].scope, rows);
      campaigns := campaigns[id := campaigns[id].(status := Running, startedAt := Some(now))];
      resp := Accepted;
    }

    method CloseCampaign(now: int, id: int) returns (resp: Response)
      modifies this
      ensures Db() == Close(old(Db()), now, id)
      ensures resp == Accepted <==> id in old(campaigns) && old(campaigns)[id].status == Running
    {
      if id !in campaigns {
        return NotFound;
      }
      if campaigns[id].status != Running {
        return Conflict;
      }
      campaigns := campaigns[id := campaigns[id].(status := Closed)];
      campaigns := campaigns[id := campaigns[id].(closedAt := Some(now))];
      resp := Accepted;
    }

    method CancelCampaign(now: int, id: int) returns (resp: Response)
      modifies this
      ensures Db() == Cancel(old(Db()), now, id)
      ensures resp == Accepted <==> id in old(campaigns) && old(campaigns)[id].status in {Draft, Running}
    {
      if id !in campaigns {
        return NotFound;
      }
      if campaigns[id].status == Closed || campaigns[id].status == Cancelled {
        return Conflict;
      }
      campaigns := campaigns[id := campaigns[id].(status := Cancelled)];
      campaigns := campaigns[id := campaigns[id].(closedAt := Some(now))];
      resp := Accepted;
    }

    /** `decide_review`; the payload carries the new status itself. */
    method AdminDecide(campaignId: int, rid: int, verdict: Verdict, actor: string, comment: string, now: int)
      returns (resp: Response)
      modifies this
      ensures resp == Accepted <==> AdminMay(old(Db()), campaignId, rid)
      ensures Db() == if resp == Accepted then Decide(old(Db()), rid, verdict, actor, comment, now) else old(Db())
    {
      if rid !in reviews || reviews[rid].campaignId != campaignId {
        return NotFound;
      }
      if reviews[rid].status != Pending {
        return Conflict;
      }
      if campaignId in campaigns && campaigns[campaignId].status != Running {
        return Conflict;
      }
      var decision := if verdict == Confirm then Confirmed else Revoked;
      var review := reviews[rid].(status := decision);
      review := review.(decidedAt := Some(now));
      review := review.(decidedBy := Some(actor));
      review := review.(comment := NonEmpty(Trim(comment)));
      reviews := reviews[rid := review];
      var revokeOrderId: Option<int> := None;
      if decision == Revoked {
        if review.orderId in orders && orders[review.orderId].status !in {OrderRevoked, OrderCancelled, Rejected} {
          orders := orders[review.orderId := orders[review.orderId].(status := Revoking)];
          orders := orders[review.orderId := orders[review.orderId].(action := Delete)];
          revokeOrderId := Some(review.orderId);
        }
      }
      if revokeOrderId.Some? {
        sent := sent + [Task(revokeOrderId.value, "reclaim")];
      }
      resp := Accepted;
    }

    /** `review_post`: the reviewer follows a signed link. */
    method TokenDecide(token: Option<int>, decision: string, comment: string, now: int) returns (resp: Response)
      modifies this
      ensures resp == Accepted <==> TokenMay(old(Db()), token, decision)
      ensures Db() == if resp == Accepted
                      then Decide(old(Db()), token.value, FormVerdict(decision).value,
                                  TokenActor(old(Db()), token.value), comment, now)
                      else old(Db())
    {
      hide Trim, NonEmpty;
      if token.None? {
        return Gone;
      }
      var rid := token.value;
      if rid !in reviews {
        return NotFound;
      }
      if decision != "confirm" && decision != "revoke" {
        return BadRequest;
      }
      var decisionNorm := if decision == "confirm" then Confirmed else Revoked;
      if reviews[rid].status != Pending {
        return AlreadyDecided;
      }
      if reviews[rid].campaignId in campaigns && campaigns[reviews[rid].campaignId].status != Running {
        return Conflict;
      }
      var actor := "api:certification_token (reviewer:" + reviews[rid].reviewerEmail + ")";
      var review := reviews[rid].(status := decisionNorm);
      review := review.(decidedAt := Some(now));
      review := review.(decidedBy := Some(actor));
      review := review.(comment := NonEmpty(Trim(comment)));
      reviews := reviews[rid := review];
      var revokeOrderId: Option<int> := None;
      if decisionNorm == Revoked {
        if review.orderId in orders && orders[review.orderId].status !in {OrderRevoked, OrderCancelled, Rejected} {
          orders := orders[review.orderId := orders[review.orderId].(status := Revoking)];
          orders := orders[review.orderId := orders[review.orderId].(action := Delete)];
          revokeOrderId := Some(review.orderId);
        }
      }
      if revokeOrderId.Some? {
        sent := sent + [Task(revokeOrderId.value, "reclaim")];
      }
      resp := Accepted;
    }

    /** `api_decide_review`: the reviewer is signed in to the portal. */
    method PortalDecide(sessionEmail: string, rid: int, decision: string, actor: string, comment: string, now: int)
      returns (resp: Response)
      modifies this
      ensures resp == Accepted <==> PortalMay(old(Db()), sessionEmail, rid, decision)
      ensures Db() == if resp == Accepted
                      then Decide(old(Db()), rid, FormVerdict(decision).value, actor, comment, now)
                      else old(Db())
    {
      hide Trim, Lower, NonEmpty;
      var email := Trim(Lower(sessionEmail));
      if email == "" {
        return Forbidden;
      }
      if rid !in reviews || Lower(reviews[rid].reviewerEmail) != email {
        return NotFound;
      }
      if decision != "confirm" && decision != "revoke" {
        return BadRequest;
      }
      var decisionNorm := if decision == "confirm" then Confirmed else Revoked;
      if reviews[rid].status != Pending {
        return AlreadyDecided;
      }
      if reviews[rid].campaignId in campaigns && campaigns[reviews[rid].campaignId].status != Running {
        return Conflict;
      }
      var review := reviews[rid].(status := decisionNorm);
      review := review.(decidedAt := Some(now));
      review := review.(decidedBy := Some(actor));
      review := review.(comment := NonEmpty(Trim(comment)));
      reviews := reviews[rid := review];
      var revokeOrderId: Option<int> := None;
      if decisionNorm == Revoked {
        if review.orderId in orders && orders[review.orderId].status !in {OrderRevoked, OrderCancelled, Rejected} {
          orders := orders[review.orderId := orders[review.orderId].(status := Revoking)];
          orders := orders[review.orderId := orders[review.orderId].(action := Delete)];
          revokeOrderId := Some(review.orderId);
        }
      }
      if revokeOrderId.Some? {
        sent := sent + [Task(revokeOrderId.value, "reclaim")];
      }
      resp := Accepted;
    }
  }

  // ----- the three routes agree -----

  /** The review's own reviewer is the one signed in. */
  predicate SignedIn(sessionEmail: string, review: Review) {
    Trim(Lower(sessionEmail)) != "" && Lower(review.reviewerEmail) == Trim(Lower(sessionEmail))
  }

  /** The same database, but for the name under which a review was decided. */
  predicate SameButActor(a: State, b: State, rid: int) {
    && rid in a.reviews && rid in b.reviews
    && a == b.(reviews := b.reviews[rid := b.reviews[rid].(decidedBy := a.reviews[rid].decidedBy)])
  }

  lemma SameDecision(st: State, rid: int, verdict: Verdict, a: string, b: string, comment: string, now: int)
    requires rid in st.reviews
    ensures var x, y := Decide(st, rid, verdict, a, comment, now), Decide(st, rid, verdict, b, comment, now);
            SameButActor(x, y, rid) && x.sent == y.sent && x.orders == y.orders
  {
    hide Revocable, NonEmpty, Trim;
  }

  /**
    Three workers on the same database take the same decision on a review, each by another route.  The
    link and the administrator's route accept it together, the portal when besides the reviewer is signed
    in; and whichever routes accept it leave the same database, the same dispatched tasks included.
   */
  method DecideEachWay(admin: Service, link: Service, portal: Service, rid: int, decision: string, adminActor: string,
                       portalActor: string, sessionEmail: string, comment: string, now: int)
    returns (byAdmin: Response, byLink: Response, byPortal: Response)
    requires admin != link && link != portal && admin != portal
    requires admin.Db() == link.Db() == portal.Db() && rid in admin.reviews && FormVerdict(decision).Some?
    modifies admin, link, portal
    ensures byLink == Accepted <==> byAdmin == Accepted
    ensures byPortal == Accepted <==> byAdmin == Accepted && SignedIn(sessionEmail, old(admin.reviews)[rid])
    ensures byAdmin == Accepted ==> SameButActor(admin.Db(), link.Db(), rid)
    ensures byPortal == Accepted ==> SameButActor(admin.Db(), portal.Db(), rid)
    ensures byAdmin == Accepted ==> admin.sent == link.sent && admin.orders == link.orders
    ensures byAdmin != Accepted ==> admin.Db() == link.Db() == portal.Db() == old(admin.Db())
  {
    hide Trim, Lower, Decide, SameButActor;
    ghost var st, verdict := admin.Db(), FormVerdict(decision).value;
    SameDecision(st, rid, verdict, adminActor, TokenActor(st, rid), comment, now);
    SameDecision(st, rid, verdict, adminActor, portalActor, comment, now);
    var campaignId := admin.reviews[rid].campaignId;
    byAdmin := admin.AdminDecide(campaignId, rid, FormVerdict(decision).value, adminActor, comment, now);
    byLink := link.TokenDecide(Some(rid), decision, comment, now);
    byPortal := portal.PortalDecide(sessionEmail, rid, decision, portalActor, comment, now);
  }

  // ----- kickoff creates exactly the right reviews -----

  /** `made` holds one fresh review, numbered from `next`, for each of `rows` in the kickoff. */
  ghost predicate Kickoff(st: State, cid: int, scope: Scope, rows: seq<int>, next: int, made: map<int, Review>) {
    && (forall k :: k in made ==> next <= k < next + |made|)
    && (forall k :: k in made ==>
          && InKickoff(st, scope, made[k].orderId) && made[k].orderId in rows
          && made[k] == FreshReview(st, cid, made[k].orderId))
    && (forall k, l :: k in made && l in made && made[k].orderId == made[l].orderId ==> k == l)
    && (forall o :: o in rows && InKickoff(st, scope, o) ==> exists k :: k in made && made[k].orderId == o)
  }

  lemma KickoffTakes(st: State, cid: int, scope: Scope, o: int, rows: seq<int>, next: int, rest: map<int, Review>)
    requires o !in rows && InKickoff(st, scope, o) && Kickoff(st, cid, scope, rows, next + 1, rest)
    ensures o in st.orders
    ensures Kickoff(st, cid, scope, [o] + rows, next, map[next := FreshReview(st, cid, o)] + rest)
    ensures |map[next := FreshReview(st, cid, o)] + rest| == |rest| + 1
  {
    KickoffMember(st, scope, o);
    FreshReviewOrder(st, cid, o);
    hide InKickoff, FreshReview;
    var made := map[next := FreshReview(st, cid, o)] + rest;
    assert next !in rest;
    assert made == rest[next := FreshReview(st, cid, o)];
    assert made[next].orderId == o;
    forall p | p in [o] + rows && InKickoff(st, scope, p) ensures exists k :: k in made && made[k].orderId == p {
      if p in rows {
        var k :| k in rest && rest[k].orderId == p;
        assert made[k].orderId == p;
      }
    }
  }

  lemma KickoffSkips(st: State, cid: int, scope: Scope, o: int, rows: seq<int>, next: int, rest: map<int, Review>)
    requires !InKickoff(st, scope, o) && Kickoff(st, cid, scope, rows, next, rest)
    ensures Kickoff(st, cid, scope, [o] + rows, next, rest)
  {
    hide InKickoff, FreshReview;
  }

  lemma {:induction false} KickoffReviewFacts(st: State, cid: int, scope: Scope, rows: seq<int>, next: int)
    requires forall i, j :: 0 <= i < j < |rows| ==> rows[i] != rows[j]
    ensures Kickoff(st, cid, scope, rows, next, KickoffReviews(st, cid, scope, rows, next))
    ensures |KickoffReviews(st, cid, scope, rows, next)| == KickoffCount(st, scope, rows)
    decreases |rows|
  {
    if rows != [] {
      assert rows[0] !in rows[1..] && rows == [rows[0]] + rows[1..];
      if InKickoff(st, scope, rows[0]) {
        KickoffReviewFacts(st, cid, scope, rows[1..], next + 1);
        var rest := KickoffReviews(st, cid, scope, rows[1..], next + 1);
        hide Kickoff, InKickoff, FreshReview;
        KickoffTakes(st, cid, scope, rows[0], rows[1..], next, rest);
      } else {
        KickoffReviewFacts(st, cid, scope, rows[1..], next);
        hide Kickoff, InKickoff, FreshReview;
        KickoffSkips(st, cid, scope, rows[0], rows[1..], next, KickoffReviews(st, cid, scope, rows[1..], next));
      }
    }
  }

  lemma KickoffMember(st: State, scope: Scope, o: int)
    requires InKickoff(st, scope, o)
    ensures o in st.orders && IsActive(st.orders[o].status)
  {
  }

  lemma FreshReviewOrder(st: State, cid: int, o: int)
    requires o in st.orders
    ensures FreshReview(st, cid, o).orderId == o
  {
  }

  /** No order has two reviews in one campaign: the unique constraint of the review table. */
  predicate OneReviewPerOrder(reviews: map<int, Review>) {
    forall r, q ::
      && r in reviews && q in reviews
      && reviews[r].campaignId == reviews[q].campaignId && reviews[r].orderId == reviews[q].orderId
      ==> r == q
  }

  /** An order a campaign of this scope asks about. */
  ghost predicate ToCertify(st: State, scope: Scope, o: Order) {
    && o.status !in {Revoking, OrderRevoked, Failed, Expired, OrderCancelled, Rejected}
    && MatchesScope(st, scope, o)
    && (o.managerEmail != "" || o.ownerEmail != "" || o.userEmail != "")
  }

  /** A review as the kickoff leaves it: undecided, and addressed to the right person. */
  ghost predicate NewReview(r: Review, cid: int, o: Order) {
    && r.campaignId == cid && r.status == Pending && r.decidedAt == None && r.decidedBy == None && r.comment == None
    && (o.managerEmail != "" ==> r.reviewerEmail == Lower(o.managerEmail))
    && (o.managerEmail == "" && o.ownerEmail != "" ==> r.reviewerEmail == Lower(o.ownerEmail))
    && (o.managerEmail == "" && o.ownerEmail == "" ==> r.reviewerEmail == Lower(o.userEmail))
  }

  lemma KickoffMeans(st: State, scope: Scope, cid: int, o: int)
    requires o in st.orders
    ensures InKickoff(st, scope, o) <==> ToCertify(st, scope, st.orders[o])
    ensures NewReview(FreshReview(st, cid, o), cid, st.orders[o])
  {
    hide MatchesScope, Lower;
  }

  /**
    Starting a draft campaign creates exactly one review for every order in scope that is still alive and
    has someone to ask, and no other; it touches no existing review.  The review is pending and goes to the
    manager who approved the order, without one to its owner, and only without either to the requester.
   */
  lemma StartCreatesOneReviewPerOrder(st: State, now: int, id: int, rows: seq<int>)
    requires Valid(st) && ListsActive(st, rows) && id in st.campaigns && st.campaigns[id].status == Draft
    ensures var after, scope := Start(st, now, id, rows), st.campaigns[id].scope;
            && (forall r :: r in st.reviews ==> r in after.reviews && after.reviews[r] == st.reviews[r])
            && (forall r :: r in after.reviews && r !in st.reviews ==>
                  && after.reviews[r].orderId in st.orders
                  && ToCertify(st, scope, st.orders[after.reviews[r].orderId])
                  && NewReview(after.reviews[r], id, st.orders[after.reviews[r].orderId]))
            && (forall o :: o in st.orders && ToCertify(st, scope, st.orders[o]) ==>
                  exists r :: r in after.reviews && after.reviews[r].campaignId == id && after.reviews[r].orderId == o)
            && OneReviewPerOrder(after.reviews)
            && |after.reviews| == |st.reviews| + KickoffCount(st, scope, rows)
  {
    var scope := st.campaigns[id].scope;
    KickoffReviewFacts(st, id, scope, rows, st.nextReview);
    var made := KickoffReviews(st, id, scope, rows, st.nextReview);
    var after := Start(st, now, id, rows);
    StartKeepsValid(st, now, id, rows);
    assert after.reviews == st.reviews + made;
    hide MatchesScope, ResolveReviewer, Lower, KickoffReviews, Start;
    forall o | o in st.orders
      ensures InKickoff(st, scope, o) <==> ToCertify(st, scope, st.orders[o])
      ensures NewReview(FreshReview(st, id, o), id, st.orders[o])
    {
      KickoffMeans(st, scope, id, o);
    }
    hide ToCertify, NewReview;
    assert forall k :: k in made ==> k >= st.nextReview;
    assert made.Keys !! st.reviews.Keys;
    assert after.reviews.Keys == st.reviews.Keys + made.Keys;
    assert |after.reviews.Keys| == |st.reviews.Keys| + |made.Keys|;
    forall o | o in st.orders && ToCertify(st, scope, st.orders[o])
      ensures exists r :: r in after.reviews && after.reviews[r].campaignId == id && after.reviews[r].orderId == o
    {
      assert o in rows;
      var r :| r in made && made[r].orderId == o;
      assert after.reviews[r] == made[r];
    }
  }

  // ----- invariants -----

  ghost predicate Valid(st: State) {
    && (forall r :: r in st.reviews ==> ReviewOk(st, st.reviews[r]))
    && (forall c :: c in st.campaigns ==> CampaignOk(st.campaigns[c]) && c < st.nextCampaign)
    && (forall r :: r in st.reviews ==> r < st.nextReview)
    && OneReviewPerOrder(st.reviews)
  }

  /** Reviews belong to started campaigns, and are dated and signed exactly when decided. */
  predicate ReviewOk(st: State, r: Review) {
    && r.campaignId in st.campaigns && st.campaigns[r.campaignId].startedAt.Some?
    && r.orderId in st.orders
    && (r.decidedAt.Some? <==> r.status != Pending) && (r.decidedBy.Some? <==> r.status != Pending)
  }

  predicate CampaignOk(c: Campaign) {
    && (c.status == Draft ==> c.startedAt.None?) && (c.status == Running || c.status == Closed ==> c.startedAt.Some?)
    && (c.closedAt.Some? <==> c.status == Closed || c.status == Cancelled)
  }

  const EMPTY := State(map[], map[], map[], map[], 1, 1, [])

  // ----- requests and runs -----

  datatype Request =
    | CreateReq(now: int, name: string, description: string, scope: Scope, dueAt: int)
    | UpdateReq(now: int, id: int, edit: Edit)
    | RemoveReq(id: int)
    | StartReq(now: int, id: int, rows: seq<int>)
    | CloseReq(now: int, id: int)
    | CancelReq(now: int, id: int)
    | AdminReq(campaignId: int, rid: int, verdict: Verdict, actor: string, comment: string, now: int)
    | TokenReq(token: Option<int>, decision: string, comment: string, now: int)
    | PortalReq(sessionEmail: string, rid: int, decision: string, actor: string, comment: string, now: int)
      /** The rest of the system: orders and types change at will, and a deleted order takes its reviews along. */
    | OrdersReq(orders: map<int, Order>, costCenters: map<int, string>)

  function Handle(st: State, req: Request): State {
    match req
    case CreateReq(now, name, description, scope, dueAt) => Create(st, now, name, description, scope, dueAt)
    case UpdateReq(now, id, edit) => Update(st, now, id, edit)
    case RemoveReq(id) => Remove(st, id)
    case StartReq(now, id, rows) => Start(st, now, id, rows)
    case CloseReq(now, id) => Close(st, now, id)
    case CancelReq(now, id) => Cancel(st, now, id)
    case AdminReq(cid, rid, verdict, actor, comment, now) =>
      if AdminMay(st, cid, rid) then Decide(st, rid, verdict, actor, comment, now) else st
    case TokenReq(token, decision, comment, now) =>
      if TokenMay(st, token, decision)
      then Decide(st, token.value, FormVerdict(decision).value, TokenActor(st, token.value), comment, now) else st
    case PortalReq(email, rid, decision, actor, comment, now) =>
      if PortalMay(st, email, rid, decision)
      then Decide(st, rid, FormVerdict(decision).value, actor, comment, now)
      else st
    case OrdersReq(orders, costCenters) =>
      st.(orders := orders, costCenters := costCenters,
          reviews := map r | r in st.reviews && st.reviews[r].orderId in orders :: st.reviews[r])
  }

  function RunAll(st: State, reqs: seq<Request>): State
    decreases |reqs|
  {
    if reqs == [] then st else RunAll(Handle(st, reqs[0]), reqs[1..])
  }

  lemma StartKeepsValid(st: State, now: int, id: int, rows: seq<int>)
    requires Valid(st)
    ensures Valid(Start(st, now, id, rows))
  {
    if id in st.campaigns && st.campaigns[id].status == Draft && ListsActive(st, rows) {
      var scope := st.campaigns[id].scope;
      KickoffReviewFacts(st, id, scope, rows, st.nextReview);
      var made := KickoffReviews(st, id, scope, rows, st.nextReview);
      var after := Start(st, now, id, rows);
      hide KickoffReviews, MatchesScope, ListsActive, KickoffCount, ResolveReviewer, Lower;
      NewReviewsFit(st, id, scope, rows, made, after);
    }
  }

  /** Reviews made for a draft campaign meet the invariants once it is started. */
  lemma NewReviewsFit(st: State, id: int, scope: Scope, rows: seq<int>, made: map<int, Review>, after: State)
    requires Valid(st) && id in st.campaigns && st.campaigns[id].startedAt.None?
    requires Kickoff(st, id, scope, rows, st.nextReview, made)
    requires after.reviews == st.reviews + made && after.orders == st.orders
            && after.nextReview == st.nextReview + |made|
    requires after.campaigns.Keys == st.campaigns.Keys && after.campaigns[id].startedAt.Some?
    requires forall c :: c in st.campaigns && c != id ==> after.campaigns[c] == st.campaigns[c]
    requires CampaignOk(after.campaigns[id]) && after.nextCampaign == st.nextCampaign
    ensures Valid(after)
  {
    OldReviewsFit(st, id, after);
    MadeReviewsFit(st, id, scope, rows, made, after);
    hide InKickoff, FreshReview, CampaignOk, ReviewOk, Kickoff;
    UnionUnique(st.reviews, made, id);
    UnionFits(st, made, after);
  }

  lemma MadeReviewsFit(st: State, id: int, scope: Scope, rows: seq<int>, made: map<int, Review>, after: State)
    requires Kickoff(st, id, scope, rows, st.nextReview, made)
    requires after.orders == st.orders && after.nextReview == st.nextReview + |made|
    requires id in after.campaigns && after.campaigns[id].startedAt.Some?
    ensures forall r :: r in made ==> ReviewOk(after, made[r]) && made[r].campaignId == id && r < after.nextReview
    ensures forall k, l :: k in made && l in made && made[k].orderId == made[l].orderId ==> k == l
  {
    hide MatchesScope, ResolveReviewer, Lower;
    forall r | r in made ensures ReviewOk(after, made[r]) && made[r].campaignId == id && r < after.nextReview {
      KickoffMember(st, scope, made[r].orderId);
      assert made[r] == FreshReview(st, id, made[r].orderId);
    }
  }

  lemma UnionFits(st: State, made: map<int, Review>, after: State)
    requires after.reviews == st.reviews + made
    requires forall r :: r in made ==> ReviewOk(after, made[r]) && r < after.nextReview
    requires forall r :: r in st.reviews ==> ReviewOk(after, st.reviews[r]) && r < after.nextReview
    ensures forall r :: r in after.reviews ==> ReviewOk(after, after.reviews[r]) && r < after.nextReview
  {
    hide ReviewOk;
    forall r | r in after.reviews ensures ReviewOk(after, after.reviews[r]) && r < after.nextReview {
      assert after.reviews[r] == if r in made then made[r] else st.reviews[r];
    }
  }

  lemma OldReviewsFit(st: State, id: int, after: State)
    requires Valid(st) && id in st.campaigns && st.campaigns[id].startedAt.None?
    requires after.orders == st.orders && after.campaigns.Keys == st.campaigns.Keys
    requires forall c :: c in st.campaigns && c != id ==> after.campaigns[c] == st.campaigns[c]
    ensures forall r :: r in st.reviews ==> st.reviews[r].campaignId != id && ReviewOk(after, st.reviews[r])
  {
    forall r | r in st.reviews ensures st.reviews[r].campaignId != id && ReviewOk(after, st.reviews[r]) {
      assert ReviewOk(st, st.reviews[r]);
    }
  }

  lemma UnionUnique(before: map<int, Review>, made: map<int, Review>, id: int)
    requires OneReviewPerOrder(before) && forall r :: r in before ==> before[r].campaignId != id
    requires forall r :: r in made ==> made[r].campaignId == id
    requires forall k, l :: k in made && l in made && made[k].orderId == made[l].orderId ==> k == l
    ensures OneReviewPerOrder(before + made)
  {
  }

  lemma DecideKeepsValid(st: State, rid: int, verdict: Verdict, actor: string, comment: string, now: int)
    requires Valid(st) && rid in st.reviews
    ensures Valid(Decide(st, rid, verdict, actor, comment, now))
  {
    var after := Decide(st, rid, verdict, actor, comment, now);
    forall r | r in after.reviews ensures ReviewOk(after, after.reviews[r]) {
      assert ReviewOk(st, st.reviews[r]);
    }
  }

  lemma HandleKeepsValid(st: State, req: Request)
    requires Valid(st)
    ensures Valid(Handle(st, req))
  {
    match req
    case StartReq(now, id, rows) => StartKeepsValid(st, now, id, rows);
    case AdminReq(cid, rid, verdict, actor, comment, now) =>
      if AdminMay(st, cid, rid) { DecideKeepsValid(st, rid, verdict, actor, comment, now); }
    case TokenReq(token, decision, comment, now) =>
      if TokenMay(st, token, decision) {
        DecideKeepsValid(st, token.value, FormVerdict(decision).value, TokenActor(st, token.value), comment, now);
      }
    case PortalReq(email, rid, decision, actor, comment, now) =>
      if PortalMay(st, email, rid, decision) {
        DecideKeepsValid(st, rid, FormVerdict(decision).value, actor, comment, now);
      }
    case CreateReq(_, _, _, _, _) => CampaignStepKeepsValid(st, req);
    case UpdateReq(_, _, _) => CampaignStepKeepsValid(st, req);
    case CloseReq(_, _) => CampaignStepKeepsValid(st, req);
    case CancelReq(_, _) => CampaignStepKeepsValid(st, req);
    case RemoveReq(_) => RemovalKeepsValid(st, req);
    case OrdersReq(_, _) => RemovalKeepsValid(st, req);
  }

  lemma CampaignStepKeepsValid(st: State, req: Request)
    requires Valid(st) && (req.CreateReq? || req.UpdateReq? || req.CloseReq? || req.CancelReq?)
    ensures Valid(Handle(st, req))
  {
    var after := Handle(st, req);
    assert after.reviews == st.reviews && after.orders == st.orders;
    forall r | r in after.reviews ensures ReviewOk(after, after.reviews[r]) {
      assert ReviewOk(st, st.reviews[r]);
    }
  }

  lemma RemovalKeepsValid(st: State, req: Request)
    requires Valid(st) && (req.RemoveReq? || req.OrdersReq?)
    ensures Valid(Handle(st, req))
  {
    var after := Handle(st, req);
    forall r | r in after.reviews ensures ReviewOk(after, after.reviews[r]) {
      assert ReviewOk(st, st.reviews[r]);
    }
  }
}
