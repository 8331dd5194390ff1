/**
 Pulse drafts: pending, then approved and published, or rejected, with an audit entry for every change. The reject
 handler awaits the request body between its status check and its write, so other requests run in between.
 */
module Pulse {
  import opened Wrappers

  datatype Status = Pending | Approved | Rejected | Published

  /** `agent` is the linked agent. */
  datatype Content = Content(profile: string, body: string, visibility: string, authorMode: string, agent: Option<string>)

  datatype Draft = Draft(content: Content, status: Status)

  datatype Action = WasCreated | WasApproved | WasRejected(reason: Option<string>) | WasPublished(postId: string)

  datatype Entry = Entry(draftId: string, action: Action, actor: string)

  /** `posts` holds the posts made by publishing a draft; the posts users write directly are not modelled. */
  datatype Db = Db(drafts: map<string, Draft>, audit: seq<Entry>, posts: map<string, Content>)

  datatype Error = DuplicateKey | NotFound | InvalidState(status: Status)

  function Create(db: Db, id: string, content: Content): (Db, Result<(), Error>) {
    if id in db.drafts then (db, Err(DuplicateKey))
    else
      (db.(drafts := db.drafts[id := Draft(content, Pending)],
           audit := db.audit + [Entry(id, WasCreated, content.profile)]), Ok(()))
  }

  /** UPDATE the status and append the audit entry, in one transaction. */
  function Write(db: Db, id: string, status: Status, action: Action, actor: string): Db {
    db.(drafts := if id in db.drafts then db.drafts[id := db.drafts[id].(status := status)] else db.drafts,
        audit := db.audit + [Entry(id, action, actor)])
  }

  /** The guard of every handler: the draft is the caller's and has the wanted status. */
  function Guard(db: Db, id: string, profile: string, wanted: Status): Result<(), Error> {
    if id !in db.drafts || db.drafts[id].content.profile != profile then Err(NotFound)
    else if db.drafts[id].status != wanted then Err(InvalidState(db.drafts[id].status))
    else Ok(())
  }

  function Approve(db: Db, id: string, profile: string): (Db, Result<(), Error>) {
    var guard := Guard(db, id, profile, Pending);
    if guard.Err? then (db, guard) else (Write(db, id, Approved, WasApproved, profile), Ok(()))
  }

  function Publish(db: Db, id: string, profile: string, postId: string): (Db, Result<(), Error>) {
    var guard := Guard(db, id, profile, Approved);
    if guard.Err? then (db, guard)
    else if postId in db.posts then (db, Err(DuplicateKey))
    else
      (Write(db, id, Published, WasPublished(postId), profile).(posts := db.posts[postId := db.drafts[id].content]),
       Ok(()))
  }

  function RejectWrite(db: Db, id: string, profile: string, reason: Option<string>): Db {
    Write(db, id, Rejected, WasRejected(reason), profile)
  }

  // ---- Interleavings ----

  /** A reject handler that passed its check and has not written yet. */
  datatype Ticket = Ticket(draftId: string, profile: string)

  datatype State = State(db: Db, rejecting: map<nat, Ticket>)

  const EMPTY := State(Db(map[], [], map[]), map[])

  datatype Event =
    | DoCreate(id: string, content: Content)
    | DoApprove(id: string, profile: string)
    | DoPublish(id: string, profile: string, postId: string)
    | RejectCheck(handler: nat, id: string, profile: string)
    | RejectFinish(handler: nat, reason: Option<string>)

  function Step(s: State, e: Event): State {
    match e
    case DoCreate(id, content) => s.(db := Create(s.db, id, content).0)
    case DoApprove(id, profile) => s.(db := Approve(s.db, id, profile).0)
    case DoPublish(id, profile, postId) => s.(db := Publish(s.db, id, profile, postId).0)
    case RejectCheck(h, id, profile) =>
      if h in s.rejecting || Guard(s.db, id, profile, Pending).Err? then s
      else s.(rejecting := s.rejecting[h := Ticket(id, profile)])
    case RejectFinish(h, reason) =>
      if h !in s.rejecting then s
      else
        State(RejectWrite(s.db, s.rejecting[h].draftId, s.rejecting[h].profile, reason), s.rejecting - {h})
  }

  function Run(s: State, events: seq<Event>): State
    decreases |events|
  {
    if events == [] then s else Run(Step(s, events[0]), events[1..])
  }

  // ---- Histories ----

  /** The audited actions of one draft, in order. */
  function History(audit: seq<Entry>, id: string): seq<Action> {
    if audit == [] then []
    else
      var earlier := History(audit[..|audit| - 1], id);
      var last := audit[|audit| - 1];
      if last.draftId == id then earlier + [last.action] else earlier
  }

  /** Created, then nothing, an approval, or an approval and a publication; then any number of rejections. */
  predicate Lifecycle(actions: seq<Action>) {
    actions != [] &&
    var last, earlier := actions[|actions| - 1], actions[..|actions| - 1];
    match last
    case WasCreated => earlier == []
    case WasApproved => earlier == [WasCreated]
    case WasPublished(_) => earlier == [WasCreated, WasApproved]
    case WasRejected(_) => Lifecycle(earlier)
  }

  function StatusAfter(action: Action): Status {
    match action
    case WasCreated => Pending
    case WasApproved => Approved
    case WasRejected(_) => Rejected
    case WasPublished(_) => Published
  }

  predicate DraftInv(db: Db, id: string)
    requires id in db.drafts
  {
    var history := History(db.audit, id);
    && Lifecycle(history)
    && db.drafts[id].status == StatusAfter(history[|history| - 1])
    && forall a :: a in history && a.WasPublished? ==> a.postId in db.posts && db.posts[a.postId] == db.drafts[id].content
  }

  ghost predicate Inv(s: State) {
    && (forall id :: id in s.db.drafts ==> DraftInv(s.db, id))
    && (forall id :: id !in s.db.drafts ==> History(s.db.audit, id) == [])
    && (forall h :: h in s.rejecting ==> s.rejecting[h].draftId in s.db.drafts)
    && (forall p :: p in s.db.posts ==> exists id :: id in s.db.drafts && WasPublished(p) in History(s.db.audit, id))
  }

  lemma HistorySnoc(audit: seq<Entry>, entry: Entry, id: string)
    ensures History(audit + [entry], id)
         == if entry.draftId == id then History(audit, id) + [entry.action] else History(audit, id)
  {
    assert (audit + [entry])[..|audit|] == audit;
  }

  /** A draft other than the one written keeps its history and status. */
  lemma OthersKept(before: Db, after: Db, entry: Entry, other: string)
    requires other != entry.draftId && after.audit == before.audit + [entry]
    requires other in before.drafts ==> DraftInv(before, other)
    requires other in before.drafts <==> other in after.drafts
    requires other in before.drafts ==> after.drafts[other] == before.drafts[other]
    requires forall p :: p in before.posts ==> p in after.posts && after.posts[p] == before.posts[p]
    ensures History(after.audit, other) == History(before.audit, other)
    ensures other in after.drafts ==> DraftInv(after, other)
  {
    HistorySnoc(before.audit, entry, other);
  }

  lemma PostsKeptPublished(before: seq<Entry>, entry: Entry, id: string, p: string)
    requires WasPublished(p) in History(before, id)
    ensures WasPublished(p) in History(before + [entry], id)
  {
    HistorySnoc(before, entry, id);
  }

  lemma WriteKeepsInv(s: State, t: State, entry: Entry)
    requires Inv(s) && t.db.audit == s.db.audit + [entry] && entry.draftId in t.db.drafts
    requires t.db.drafts.Keys == s.db.drafts.Keys + {entry.draftId}
    requires forall id :: id in s.db.drafts && id != entry.draftId ==> t.db.drafts[id] == s.db.drafts[id]
    requires forall p :: p in s.db.posts ==> p in t.db.posts && t.db.posts[p] == s.db.posts[p]
    requires forall p :: p in t.db.posts && p !in s.db.posts ==> entry.action == WasPublished(p)
    requires DraftInv(t.db, entry.draftId)
    requires forall h :: h in t.rejecting ==> h in s.rejecting && t.rejecting[h] == s.rejecting[h]
    ensures Inv(t)
  {
    forall id | id != entry.draftId
      ensures History(t.db.audit, id) == History(s.db.audit, id) && (id in t.db.drafts ==> DraftInv(t.db, id))
    {
      OthersKept(s.db, t.db, entry, id);
    }
    forall p | p in t.db.posts
      ensures exists id :: id in t.db.drafts && WasPublished(p) in History(t.db.audit, id)
    {
      if p in s.db.posts {
        var id :| id in s.db.drafts && WasPublished(p) in History(s.db.audit, id);
        PostsKeptPublished(s.db.audit, entry, id, p);
      } else {
        HistorySnoc(s.db.audit, entry, entry.draftId);
      }
    }
  }

  /** One more entry for a draft whose history and status are known. */
  lemma EntryKeepsDraftInv(before: Db, after: Db, id: string, action: Action, actor: string)
    requires after.audit == before.audit + [Entry(id, action, actor)] && id in after.drafts
    requires Lifecycle(History(before.audit, id) + [action]) && after.drafts[id].status == StatusAfter(action)
    requires id in before.drafts ==> DraftInv(before, id) && after.drafts[id].content == before.drafts[id].content
    requires id !in before.drafts ==> History(before.audit, id) == []
    requires forall p :: p in before.posts ==> p in after.posts && after.posts[p] == before.posts[p]
    requires action.WasPublished? ==>
      action.postId in after.posts && after.posts[action.postId] == after.drafts[id].content
    ensures DraftInv(after, id)
  {
    HistorySnoc(before.audit, Entry(id, action, actor), id);
  }

  lemma CreateKeepsInv(s: State, id: string, content: Content)
    requires Inv(s)
    ensures Inv(s.(db := Create(s.db, id, content).0))
  {
    var t := s.(db := Create(s.db, id, content).0);
    if id !in s.db.drafts {
      EntryKeepsDraftInv(s.db, t.db, id, WasCreated, content.profile);
      WriteKeepsInv(s, t, Entry(id, WasCreated, content.profile));
    }
  }

  lemma ApproveKeepsInv(s: State, id: string, profile: string)
    requires Inv(s)
    ensures Inv(s.(db := Approve(s.db, id, profile).0))
  {
    var t := s.(db := Approve(s.db, id, profile).0);
    if Guard(s.db, id, profile, Pending).Ok? {
      assert DraftInv(s.db, id);
      PendingMeansCreated(History(s.db.audit, id));
      assert ([WasCreated] + [WasApproved])[..1] == [WasCreated];
      EntryKeepsDraftInv(s.db, t.db, id, WasApproved, profile);
      WriteKeepsInv(s, t, Entry(id, WasApproved, profile));
    }
  }

  lemma PublishKeepsInv(s: State, id: string, profile: string, postId: string)
    requires Inv(s)
    ensures Inv(s.(db := Publish(s.db, id, profile, postId).0))
  {
    var t := s.(db := Publish(s.db, id, profile, postId).0);
    if Publish(s.db, id, profile, postId).1.Ok? {
      assert DraftInv(s.db, id);
      ApprovedMeansApproved(History(s.db.audit, id));
      assert ([WasCreated, WasApproved] + [WasPublished(postId)])[..2] == [WasCreated, WasApproved];
      EntryKeepsDraftInv(s.db, t.db, id, WasPublished(postId), profile);
      WriteKeepsInv(s, t, Entry(id, WasPublished(postId), profile));
    }
  }

  lemma RejectFinishKeepsInv(s: State, h: nat, reason: Option<string>)
    requires Inv(s)
    ensures Inv(Step(s, RejectFinish(h, reason)))
  {
    if h in s.rejecting {
      var t := Step(s, RejectFinish(h, reason));
      var ticket := s.rejecting[h];
      assert DraftInv(s.db, ticket.draftId);
      var earlier := History(s.db.audit, ticket.draftId);
      assert (earlier + [WasRejected(reason)])[..|earlier|] == earlier;
      EntryKeepsDraftInv(s.db, t.db, ticket.draftId, WasRejected(reason), ticket.profile);
      WriteKeepsInv(s, t, Entry(ticket.draftId, WasRejected(reason), ticket.profile));
    }
  }

  lemma StepKeepsInv(s: State, e: Event)
    requires Inv(s)
    ensures Inv(Step(s, e))
  {
    match e
    case DoCreate(id, content) => CreateKeepsInv(s, id, content);
    case DoApprove(id, profile) => ApproveKeepsInv(s, id, profile);
    case DoPublish(id, profile, postId) => PublishKeepsInv(s, id, profile, postId);
    case RejectCheck(_, _, _) =>
    case RejectFinish(h, reason) => RejectFinishKeepsInv(s, h, reason);
  }

  lemma PendingMeansCreated(actions: seq<Action>)
    requires Lifecycle(actions) && StatusAfter(actions[|actions| - 1]) == Pending
    ensures actions == [WasCreated]
  {
    assert actions == actions[..|actions| - 1] + [actions[|actions| - 1]];
  }

  lemma ApprovedMeansApproved(actions: seq<Action>)
    requires Lifecycle(actions) && StatusAfter(actions[|actions| - 1]) == Approved
    ensures actions == [WasCreated, WasApproved]
  {
    assert actions == actions[..|actions| - 1] + [actions[|actions| - 1]];
  }

  /**
   In every interleaving each draft's audit trail is a life cycle, its status is what the last entry says, and every
   post was published from a draft and carries that draft's fields.
   */
  lemma {:induction false} RunKeepsInv(s: State, events: seq<Event>)
    requires Inv(s)
    ensures Inv(Run(s, events))
    decreases |events|
  {
    if events != [] {
      StepKeepsInv(s, events[0]);
      RunKeepsInv(Step(s, events[0]), events[1..]);
    }
  }

  // ---- Who may do what when ----

  /** What the request asks to have done to its draft, and whether the draft's history allows it. */
  predicate AllowedByHistory(s: State, e: Event) {
    var history := if e.RejectFinish? then [] else History(s.db.audit, e.id);
    match e
    case DoCreate(_, _) => history == []
    case DoApprove(id, profile) => history == [WasCreated] && Owns(s.db, id, profile)
    case DoPublish(id, profile, postId) =>
      history == [WasCreated, WasApproved] && Owns(s.db, id, profile) && postId !in s.db.posts
    case RejectCheck(h, id, profile) => history == [WasCreated] && Owns(s.db, id, profile) && h !in s.rejecting
    case RejectFinish(h, _) => h in s.rejecting
  }

  predicate Owns(db: Db, id: string, profile: string) {
    id in db.drafts && db.drafts[id].content.profile == profile
  }

  /** The audit entry a request that goes through leaves behind; a reject check leaves none. */
  function EntryOf(s: State, e: Event): seq<Entry>
    requires e.RejectFinish? ==> e.handler in s.rejecting
  {
    match e
    case DoCreate(id, content) => [Entry(id, WasCreated, content.profile)]
    case DoApprove(id, profile) => [Entry(id, WasApproved, profile)]
    case DoPublish(id, profile, postId) => [Entry(id, WasPublished(postId), profile)]
    case RejectCheck(_, _, _) => []
    case RejectFinish(h, reason) => [Entry(s.rejecting[h].draftId, WasRejected(reason), s.rejecting[h].profile)]
  }

  lemma HistoryMatchesStatus(db: Db, id: string)
    requires id in db.drafts && DraftInv(db, id)
    ensures History(db.audit, id) != []
    ensures History(db.audit, id) == [WasCreated] <==> db.drafts[id].status == Pending
    ensures History(db.audit, id) == [WasCreated, WasApproved] <==> db.drafts[id].status == Approved
  {
    if db.drafts[id].status == Pending {
      PendingMeansCreated(History(db.audit, id));
    }
    if db.drafts[id].status == Approved {
      ApprovedMeansApproved(History(db.audit, id));
    }
  }

  /**
   The guards, read off the audit log: a draft can be approved or come under rejection while it was created and nothing
   else, published once it was approved and nothing else, and each only by its owner. A request that goes through
   leaves exactly its own entry; one that does not changes nothing.
   */
  lemma StepIsAllowedIff(s: State, e: Event)
    requires Inv(s)
    ensures AllowedByHistory(s, e) ==>
      && Step(s, e).db.audit == s.db.audit + EntryOf(s, e)
      && (e.DoCreate? ==> e.id in Step(s, e).db.drafts && Step(s, e).db.drafts[e.id].content == e.content)
      && (e.RejectCheck? ==> Step(s, e) == s.(rejecting := s.rejecting[e.handler := Ticket(e.id, e.profile)]))
      && (e.RejectFinish? ==> Step(s, e).rejecting == s.rejecting - {e.handler})
    ensures !AllowedByHistory(s, e) ==> Step(s, e) == s
  {
    if !e.RejectFinish? && e.id in s.db.drafts {
      assert DraftInv(s.db, e.id);
      HistoryMatchesStatus(s.db, e.id);
    }
  }

  /** A refusal tells the caller that the draft is not its own, the draft's actual status, or that a row id is taken. */
  lemma RefusalsAreJustified(db: Db, id: string, profile: string, postId: string, content: Content)
    ensures match Approve(db, id, profile).1
      case Ok(_) => true
      case Err(InvalidState(status)) => Owns(db, id, profile) && status == db.drafts[id].status != Pending
      case Err(error) => error == NotFound && !Owns(db, id, profile)
    ensures match Publish(db, id, profile, postId).1
      case Ok(_) => true
      case Err(InvalidState(status)) => Owns(db, id, profile) && status == db.drafts[id].status != Approved
      case Err(DuplicateKey) => postId in db.posts
      case Err(error) => error == NotFound && !Owns(db, id, profile)
    ensures Create(db, id, content).1 == if id in db.drafts then Err(DuplicateKey) else Ok(())
  {
  }

  /** Every entry of a draft's log was made by the draft's own profile. */
  ghost predicate ActorsOwn(s: State) {
    && (forall k :: 0 <= k < |s.db.audit| ==> Owns(s.db, s.db.audit[k].draftId, s.db.audit[k].actor))
    && (forall h :: h in s.rejecting ==> Owns(s.db, s.rejecting[h].draftId, s.rejecting[h].profile))
  }

  lemma StepKeepsActorsOwn(s: State, e: Event)
    requires ActorsOwn(s)
    ensures ActorsOwn(Step(s, e))
  {
    var t := Step(s, e);
    assert forall id, profile :: Owns(s.db, id, profile) ==> Owns(t.db, id, profile);
  }

  lemma {:induction false} RunKeepsActorsOwn(s: State, events: seq<Event>)
    requires ActorsOwn(s)
    ensures ActorsOwn(Run(s, events))
    decreases |events|
  {
    if events != [] {
      StepKeepsActorsOwn(s, events[0]);
      RunKeepsActorsOwn(Step(s, events[0]), events[1..]);
    }
  }

  /** In every interleaving the actor of every audited creation, approval, publication and rejection is the owner. */
  lemma OnlyOwnersAct(events: seq<Event>, k: nat)
    requires k < |Run(EMPTY, events).db.audit|
    ensures var db := Run(EMPTY, events).db; var entry := db.audit[k];
      entry.draftId in db.drafts && db.drafts[entry.draftId].content.profile == entry.actor
  {
    RunKeepsActorsOwn(EMPTY, events);
  }

  // ---- No two drafts share a post ----

  ghost predicate PostsApart(audit: seq<Entry>) {
    forall p, a, b :: WasPublished(p) in History(audit, a) && WasPublished(p) in History(audit, b) ==> a == b
  }

  lemma EntryKeepsPostsApart(audit: seq<Entry>, entry: Entry)
    requires PostsApart(audit)
    requires entry.action.WasPublished? ==> forall id :: entry.action !in History(audit, id)
    ensures PostsApart(audit + [entry])
  {
    forall p, a, b |
      WasPublished(p) in History(audit + [entry], a) && WasPublished(p) in History(audit + [entry], b)
      ensures a == b
    {
      HistorySnoc(audit, entry, a);
      HistorySnoc(audit, entry, b);
      if entry.action == WasPublished(p) {
        assert WasPublished(p) !in History(audit, a) && WasPublished(p) !in History(audit, b);
      }
    }
  }

  /** A publication draws a post id that is free, so one no history mentions. */
  lemma PublishKeepsPostsApart(s: State, id: string, profile: string, postId: string)
    requires Inv(s) && PostsApart(s.db.audit)
    ensures PostsApart(Publish(s.db, id, profile, postId).0.audit)
  {
    if Publish(s.db, id, profile, postId).1.Ok? {
      forall d ensures WasPublished(postId) !in History(s.db.audit, d) {
        if d in s.db.drafts { assert DraftInv(s.db, d); }
      }
      EntryKeepsPostsApart(s.db.audit, Entry(id, WasPublished(postId), profile));
    }
  }

  lemma StepKeepsPostsApart(s: State, e: Event)
    requires Inv(s) && PostsApart(s.db.audit)
    ensures PostsApart(Step(s, e).db.audit)
  {
    match e
    case DoCreate(id, content) => EntryKeepsPostsApart(s.db.audit, Entry(id, WasCreated, content.profile));
    case DoApprove(id, profile) => EntryKeepsPostsApart(s.db.audit, Entry(id, WasApproved, profile));
    case DoPublish(id, profile, postId) => PublishKeepsPostsApart(s, id, profile, postId);
    case RejectCheck(_, _, _) =>
    case RejectFinish(h, reason) =>
      if h in s.rejecting {
        EntryKeepsPostsApart(s.db.audit, Entry(s.rejecting[h].draftId, WasRejected(reason), s.rejecting[h].profile));
      }
  }

  lemma {:induction false} RunKeepsPostsApart(s: State, events: seq<Event>)
    requires Inv(s) && PostsApart(s.db.audit)
    ensures PostsApart(Run(s, events).db.audit)
    decreases |events|
  {
    if events != [] {
      StepKeepsInv(s, events[0]);
      StepKeepsPostsApart(s, events[0]);
      RunKeepsPostsApart(Step(s, events[0]), events[1..]);
    }
  }

  /** In every interleaving each post made by publishing comes from exactly one draft and carries that draft's fields. */
  lemma PostHasOneDraft(events: seq<Event>, p: string) returns (id: string)
    requires p in Run(EMPTY, events).db.posts
    ensures var db := Run(EMPTY, events).db;
      && id in db.drafts && db.drafts[id].content == db.posts[p]
      && forall d :: WasPublished(p) in History(db.audit, d) <==> d == id
  {
    assert Inv(EMPTY);
    RunKeepsInv(EMPTY, events);
    RunKeepsPostsApart(EMPTY, events);
    var db := Run(EMPTY, events).db;
    id :| id in db.drafts && WasPublished(p) in History(db.audit, id);
    assert DraftInv(db, id);
  }

  function Count(actions: seq<Action>, which: Action -> bool): nat {
    if actions == [] then 0
    else Count(actions[..|actions| - 1], which) + (if which(actions[|actions| - 1]) then 1 else 0)
  }

  /** A life cycle holds at most one approval, at most one publication, and no publication without the approval. */
  lemma {:induction false} LifecycleCounts(actions: seq<Action>)
    requires Lifecycle(actions)
    ensures Count(actions, (a: Action) => a.WasPublished?) <= Count(actions, (a: Action) => a.WasApproved?) <= 1
    decreases |actions|
  {
    var approved := (a: Action) => a.WasApproved?;
    var published := (a: Action) => a.WasPublished?;
    var last, earlier := actions[|actions| - 1], actions[..|actions| - 1];
    match last
    case WasRejected(_) => LifecycleCounts(earlier);
    case WasCreated => assert Count(earlier, approved) == Count(earlier, published) == 0;
    case WasApproved =>
      assert [WasCreated][..0] == [];
      assert Count([WasCreated], approved) == Count([WasCreated], published) == 0;
    case WasPublished(_) =>
      assert [WasCreated][..0] == [] && [WasCreated, WasApproved][..1] == [WasCreated];
      assert Count([WasCreated], approved) == Count([WasCreated], published) == 0;
      assert Count([WasCreated, WasApproved], approved) == 1;
      assert Count([WasCreated, WasApproved], published) == 0;
  }

  /** A draft's content never changes. */
  lemma {:induction false} RunKeepsContent(s: State, events: seq<Event>, id: string)
    requires id in s.db.drafts
    ensures id in Run(s, events).db.drafts && Run(s, events).db.drafts[id].content == s.db.drafts[id].content
    decreases |events|
  {
    if events != [] {
      RunKeepsContent(Step(s, events[0]), events[1..], id);
    }
  }

  /**
   The headline: from an empty database, however requests interleave, a draft is approved at most once, yields at most
   one post, any post carries the fields the draft has had all along, and the status is the last audited action.
   */
  lemma ApprovedAndPublishedAtMostOnce(events: seq<Event>, id: string)
    requires id in Run(EMPTY, events).db.drafts
    ensures var db := Run(EMPTY, events).db; var history := History(db.audit, id);
      && history != [] && db.drafts[id].status == StatusAfter(history[|history| - 1])
      && Count(history, (a: Action) => a.WasPublished?) <= Count(history, (a: Action) => a.WasApproved?) <= 1
      && forall p :: WasPublished(p) in history ==> p in db.posts && db.posts[p] == db.drafts[id].content
  {
    assert Inv(EMPTY);
    RunKeepsInv(EMPTY, events);
    var db := Run(EMPTY, events).db;
    assert DraftInv(db, id);
    LifecycleCounts(History(db.audit, id));
  }

  // ---- The late reject ----

  predicate HasPost(db: Db, id: string) {
    exists a :: a in History(db.audit, id) && a.WasPublished?
  }

  /** The draft's post is public and the draft no longer says so. */
  predicate Hidden(db: Db, id: string) {
    HasPost(db, id) && id in db.drafts && db.drafts[id].status != Published
  }

  /** A reject handler about to write over a published draft, which a second look at the status would show. */
  predicate OverwritesPublished(s: State, e: Event, id: string) {
    && e.RejectFinish? && e.handler in s.rejecting && s.rejecting[e.handler].draftId == id
    && id in s.db.drafts && s.db.drafts[id].status == Published
  }

  predicate EverOverwritesPublished(s: State, events: seq<Event>, id: string)
    decreases |events|
  {
    && events != []
    && (OverwritesPublished(s, events[0], id) || EverOverwritesPublished(Step(s, events[0]), events[1..], id))
  }

  lemma PostAfterEntry(before: seq<Entry>, entry: Entry, id: string)
    ensures (exists a :: a in History(before + [entry], id) && a.WasPublished?)
       <==> (exists a :: a in History(before, id) && a.WasPublished?) || (entry.draftId == id && entry.action.WasPublished?)
  {
    HistorySnoc(before, entry, id);
    var earlier, later := History(before, id), History(before + [entry], id);
    assert forall a :: a in later <==> a in earlier || (entry.draftId == id && a == entry.action);
  }

  /** A posted draft shows as published or rejected; one that shows as published is posted. */
  lemma {:induction false} PostedStatus(actions: seq<Action>)
    requires Lifecycle(actions)
    ensures var status := StatusAfter(actions[|actions| - 1]);
      && ((exists a :: a in actions && a.WasPublished?) ==> status == Published || status == Rejected)
      && (status == Published ==> exists a :: a in actions && a.WasPublished?)
  {
    var last := actions[|actions| - 1];
    assert actions == actions[..|actions| - 1] + [last];
    if last.WasPublished? {
      assert last in actions;
    }
  }

  predicate AuditMatches(db: Db, id: string) {
    if id in db.drafts then DraftInv(db, id) else History(db.audit, id) == []
  }

  /** One more entry hides a post when it is a rejection of a published draft. */
  lemma HiddenAfterEntry(before: Db, after: Db, entry: Entry, id: string)
    requires AuditMatches(before, id) && after.audit == before.audit + [entry]
    requires entry.draftId != id ==>
      if id in before.drafts then id in after.drafts && after.drafts[id] == before.drafts[id] else id !in after.drafts
    requires entry.draftId == id ==>
      && id in after.drafts && after.drafts[id].status == StatusAfter(entry.action)
      && (entry.action.WasRejected? ==> id in before.drafts)
      && (id in before.drafts && !entry.action.WasRejected? ==>
            before.drafts[id].status == Pending || before.drafts[id].status == Approved)
    ensures Hidden(after, id) <==>
      Hidden(before, id) || (entry.draftId == id && entry.action.WasRejected? && before.drafts[id].status == Published)
  {
    PostAfterEntry(before.audit, entry, id);
    if id in before.drafts {
      PostedStatus(History(before.audit, id));
    }
  }

  lemma CreateHidesNothing(s: State, d: string, content: Content, id: string)
    requires AuditMatches(s.db, id)
    ensures Hidden(Create(s.db, d, content).0, id) <==> Hidden(s.db, id)
  {
    if d !in s.db.drafts {
      HiddenAfterEntry(s.db, Create(s.db, d, content).0, Entry(d, WasCreated, content.profile), id);
    }
  }

  lemma ApproveHidesNothing(s: State, d: string, profile: string, id: string)
    requires AuditMatches(s.db, id)
    ensures Hidden(Approve(s.db, d, profile).0, id) <==> Hidden(s.db, id)
  {
    if Guard(s.db, d, profile, Pending).Ok? {
      HiddenAfterEntry(s.db, Approve(s.db, d, profile).0, Entry(d, WasApproved, profile), id);
    }
  }

  lemma PublishHidesNothing(s: State, d: string, profile: string, postId: string, id: string)
    requires AuditMatches(s.db, id)
    ensures Hidden(Publish(s.db, d, profile, postId).0, id) <==> Hidden(s.db, id)
  {
    var (after, result) := Publish(s.db, d, profile, postId);
    if result.Ok? {
      HiddenAfterEntry(s.db, after, Entry(d, WasPublished(postId), profile), id);
    }
  }

  lemma RejectWriteHidesIff(db: Db, ticket: Ticket, reason: Option<string>, id: string)
    requires ticket.draftId in db.drafts
    requires AuditMatches(db, id)
    ensures Hidden(RejectWrite(db, ticket.draftId, ticket.profile, reason), id)
       <==> Hidden(db, id) || (ticket.draftId == id && db.drafts[id].status == Published)
  {
    HiddenAfterEntry(db, RejectWrite(db, ticket.draftId, ticket.profile, reason),
                     Entry(ticket.draftId, WasRejected(reason), ticket.profile), id);
  }

  lemma RejectHidesPublished(s: State, h: nat, reason: Option<string>, id: string)
    requires h in s.rejecting ==> s.rejecting[h].draftId in s.db.drafts
    requires AuditMatches(s.db, id)
    ensures Hidden(Step(s, RejectFinish(h, reason)).db, id)
       <==> Hidden(s.db, id) || OverwritesPublished(s, RejectFinish(h, reason), id)
  {
    if h in s.rejecting {
      RejectWriteHidesIff(s.db, s.rejecting[h], reason, id);
    }
  }

  lemma StepHidesIff(s: State, e: Event, id: string)
    requires AuditMatches(s.db, id)
    requires e.RejectFinish? && e.handler in s.rejecting ==> s.rejecting[e.handler].draftId in s.db.drafts
    ensures Hidden(Step(s, e).db, id) <==> Hidden(s.db, id) || OverwritesPublished(s, e, id)
  {
    match e
    case DoCreate(d, content) => CreateHidesNothing(s, d, content, id);
    case DoApprove(d, profile) => ApproveHidesNothing(s, d, profile, id);
    case DoPublish(d, profile, postId) => PublishHidesNothing(s, d, profile, postId, id);
    case RejectCheck(_, _, _) =>
    case RejectFinish(h, reason) => RejectHidesPublished(s, h, reason, id);
  }

  lemma HiddenMeansRejected(db: Db, id: string)
    requires AuditMatches(db, id) && Hidden(db, id)
    ensures db.drafts[id].status == Rejected
  {
    PostedStatus(History(db.audit, id));
  }

  /** The exact guard of every step: a post becomes hidden when a reject is written over a published draft, and stays so. */
  lemma RejectedWithPostIff(s: State, e: Event, id: string)
    requires Inv(s)
    ensures Hidden(Step(s, e).db, id) <==> Hidden(s.db, id) || OverwritesPublished(s, e, id)
    ensures Hidden(s.db, id) ==> s.db.drafts[id].status == Rejected
  {
    assert AuditMatches(s.db, id);
    StepHidesIff(s, e, id);
    if Hidden(s.db, id) {
      HiddenMeansRejected(s.db, id);
    }
  }

  /**
   In every interleaving a draft hides its public post exactly when some reject was written while the draft was
   published. Rejections written over a pending, approved or rejected draft do no such harm.
   */
  lemma {:induction false} PostIsHiddenIff(s: State, events: seq<Event>, id: string)
    requires Inv(s)
    ensures Hidden(Run(s, events).db, id) <==> Hidden(s.db, id) || EverOverwritesPublished(s, events, id)
    decreases |events|
  {
    if events != [] {
      StepKeepsInv(s, events[0]);
      RejectedWithPostIff(s, events[0], id);
      PostIsHiddenIff(Step(s, events[0]), events[1..], id);
    }
  }

  /** From an empty database: a draft with a post shows as published if no reject overwrote that, else as rejected. */
  lemma PublishedStaysPublishedIff(events: seq<Event>, id: string)
    ensures var db := Run(EMPTY, events).db;
      && (HasPost(db, id) ==> id in db.drafts)
      && (HasPost(db, id) ==>
            (db.drafts[id].status == Published <==> !EverOverwritesPublished(EMPTY, events, id)))
      && (EverOverwritesPublished(EMPTY, events, id) ==> HasPost(db, id) && db.drafts[id].status == Rejected)
  {
    assert Inv(EMPTY);
    PostIsHiddenIff(EMPTY, events, id);
    RunKeepsInv(EMPTY, events);
    RejectedWithPostIff(Run(EMPTY, events), DoApprove(id, ""), id);
  }

  lemma OverwriteHides(s: State, h: nat, reason: Option<string>)
    requires Inv(s) && h in s.rejecting && s.db.drafts[s.rejecting[h].draftId].status == Published
    ensures var t := Step(s, RejectFinish(h, reason)); var id := s.rejecting[h].draftId;
      Hidden(t.db, id) && t.db.posts == s.db.posts && t.db.drafts[id].status == Rejected
  {
    RejectHidesPublished(s, h, reason, s.rejecting[h].draftId);
  }

  lemma ApproveOpensPublish(s: State, id: string, profile: string)
    requires Inv(s) && Guard(s.db, id, profile, Pending).Ok?
    ensures var t := Step(s, DoApprove(id, profile));
      Inv(t) && t.rejecting == s.rejecting && t.db.posts == s.db.posts && Guard(t.db, id, profile, Approved).Ok?
  {
    ApproveKeepsInv(s, id, profile);
  }

  lemma PublishShows(s: State, id: string, profile: string, postId: string)
    requires Inv(s) && Guard(s.db, id, profile, Approved).Ok? && postId !in s.db.posts
    ensures var t := Step(s, DoPublish(id, profile, postId));
      && Inv(t) && t.rejecting == s.rejecting && postId in t.db.posts
      && id in t.db.drafts && t.db.drafts[id].status == Published
  {
    PublishKeepsInv(s, id, profile, postId);
  }

  lemma PublishedInBetween(s: State, id: string, profile: string, postId: string)
    requires Inv(s) && Guard(s.db, id, profile, Pending).Ok? && postId !in s.db.posts
    ensures var t := Step(Step(s, DoApprove(id, profile)), DoPublish(id, profile, postId));
      && Inv(t) && t.rejecting == s.rejecting && postId in t.db.posts
      && id in t.db.drafts && t.db.drafts[id].status == Published
  {
    ApproveOpensPublish(s, id, profile);
    PublishShows(Step(s, DoApprove(id, profile)), id, profile, postId);
  }

  /** It does happen: a reject that passed its check before another request approved and published ends that way. */
  lemma LateRejectHidesPost(s: State, h: nat, postId: string, reason: Option<string>)
    requires Inv(s) && h in s.rejecting && postId !in s.db.posts
    requires s.db.drafts[s.rejecting[h].draftId].status == Pending
    requires s.db.drafts[s.rejecting[h].draftId].content.profile == s.rejecting[h].profile
    ensures var id, profile := s.rejecting[h].draftId, s.rejecting[h].profile;
      var t := Step(Step(Step(s, DoApprove(id, profile)), DoPublish(id, profile, postId)), RejectFinish(h, reason));
      Hidden(t.db, id) && postId in t.db.posts && t.db.drafts[id].status == Rejected
  {
    var id, profile := s.rejecting[h].draftId, s.rejecting[h].profile;
    PublishedInBetween(s, id, profile, postId);
    OverwriteHides(Step(Step(s, DoApprove(id, profile)), DoPublish(id, profile, postId)), h, reason);
  }
}
