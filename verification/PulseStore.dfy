/** The three Pulse tables updated in place, and the handlers over them; reject is cut at its await. */
module PulseStore {
  import opened Wrappers
  import P = Pulse

  class PulseDb {
    var drafts: map<string, P.Draft>
    var audit: seq<P.Entry>
    var posts: map<string, P.Content>

    ghost function View(): P.Db
      reads this
    {
      P.Db(drafts, audit, posts)
    }

    constructor ()
      ensures View() == P.EMPTY.db
    {
      drafts, audit, posts := map[], [], map[];
    }

    method SetStatus(id: string, status: P.Status)
      modifies this`drafts
      ensures drafts == if id in old(drafts) then old(drafts)[id := old(drafts)[id].(status := status)] else old(drafts)
    {
      if id in drafts {
        drafts := drafts[id := drafts[id].(status := status)];
      }
    }

    method AppendAudit(id: string, action: P.Action, actor: string)
      modifies this`audit
      ensures audit == old(audit) + [P.Entry(id, action, actor)]
    {
      audit := audit + [P.Entry(id, action, actor)];
    }

    method CreateDraft(id: string, content: P.Content) returns (result: Result<(), P.Error>)
      modifies this
      ensures (View(), result) == P.Create(old(View()), id, content)
    {
      if id in drafts {
        return Err(P.DuplicateKey);
      }
      drafts := drafts[id := P.Draft(content, P.Pending)];
      AppendAudit(id, P.WasCreated, content.profile);
      return Ok(());
    }

    method CheckDraft(id: string, profile: string, wanted: P.Status) returns (result: Result<(), P.Error>)
      ensures result == P.Guard(View(), id, profile, wanted)
    {
      if id !in drafts || drafts[id].content.profile != profile {
        return Err(P.NotFound);
      }
      if drafts[id].status != wanted {
        return Err(P.InvalidState(drafts[id].status));
      }
      return Ok(());
    }

    method ApproveDraft(id: string, profile: string) returns (result: Result<(), P.Error>)
      modifies this
      ensures (View(), result) == P.Approve(old(View()), id, profile)
    {
      result := CheckDraft(id, profile, P.Pending);
      if result.Err? {
        return;
      }
      SetStatus(id, P.Approved);
      AppendAudit(id, P.WasApproved, profile);
    }

    method PublishDraft(id: string, profile: string, postId: string) returns (result: Result<(), P.Error>)
      modifies this
      ensures (View(), result) == P.Publish(old(View()), id, profile, postId)
    {
      result := CheckDraft(id, profile, P.Approved);
      if result.Err? {
        return;
      }
      if postId in posts {
        return Err(P.DuplicateKey);
      }
      posts := posts[postId := drafts[id].content];
      SetStatus(id, P.Published);
      AppendAudit(id, P.WasPublished(postId), profile);
    }

    /** The part of the reject handler after its await; it does not look at the status again. */
    method FinishReject(id: string, profile: string, reason: Option<string>)
      modifies this
      ensures View() == P.RejectWrite(old(View()), id, profile, reason)
    {
      SetStatus(id, P.Rejected);
      AppendAudit(id, P.WasRejected(reason), profile);
    }
  }
}
