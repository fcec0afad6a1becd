/**
 The AI chat sessions kept per plan and coach: picking or creating the
 session, and the title a session gets from its first message. The
 session table is a sequence of rows; an update is the table it leaves.
 */
module AiChat {
  import opened Common

  const MaxTitle := 60
  const KeptChars := 57
  const Ellipsis := "..."

  /** `updateTitle`'s title: a message longer than 60 characters is cut to 57 and ends in "...". */
  function Title(firstMessage: string): (t: string)
    ensures |t| <= MaxTitle
    ensures |firstMessage| > MaxTitle ==> |t| == MaxTitle && t[..KeptChars] == firstMessage[..KeptChars] && t[KeptChars..] == Ellipsis
    ensures |firstMessage| <= MaxTitle ==> t == firstMessage
  {
    if |firstMessage| > MaxTitle then firstMessage[..KeptChars] + Ellipsis else firstMessage
  }

  /** The title always starts with the message's first characters: all of them, or the first 57. */
  lemma TitlePrefix(firstMessage: string)
    ensures var n := if |firstMessage| > MaxTitle then KeptChars else |firstMessage|;
      n <= |Title(firstMessage)| && Title(firstMessage)[..n] == firstMessage[..n]
  {
  }

  /** A title is short enough to be its own title: truncating twice is truncating once. */
  lemma TitleIdempotent(firstMessage: string)
    ensures Title(Title(firstMessage)) == Title(firstMessage)
  {
  }

  /** Only messages longer than 60 characters change, so a title differs from its message exactly then. */
  lemma TitleChangesOnlyLong(firstMessage: string)
    ensures Title(firstMessage) != firstMessage <==> |firstMessage| > MaxTitle
  {
  }

  datatype Session = Session(id: string, planId: string, coachId: string, title: Option<string>)

  function Retitle(sessionId: string, title: Option<string>): Session -> Session {
    (s: Session) => if s.id == sessionId then s.(title := title) else s
  }

  /** `updateTitle`: the row with the session's id gets the title; every other row is left as it was. */
  function UpdateTitle(sessions: seq<Session>, sessionId: string, firstMessage: string): (r: seq<Session>)
    ensures |r| == |sessions|
    ensures forall i :: 0 <= i < |r| ==>
      if sessions[i].id == sessionId then r[i] == sessions[i].(title := Some(Title(firstMessage))) else r[i] == sessions[i]
  {
    Map(sessions, Retitle(sessionId, Some(Title(firstMessage))))
  }

  /** `clearSession`'s reset: the session's title is cleared (its messages are deleted elsewhere). */
  function ClearTitle(sessions: seq<Session>, sessionId: string): (r: seq<Session>)
    ensures |r| == |sessions|
    ensures forall i :: 0 <= i < |r| ==>
      if sessions[i].id == sessionId then r[i] == sessions[i].(title := None) else r[i] == sessions[i]
  {
    Map(sessions, Retitle(sessionId, None))
  }

  /**
   `clearSession`: the title is reset only after the message delete
   succeeded; a delete error is thrown with its message and the table is
   left as it was. The reset's own answer is not checked.
   */
  function ClearSession(sessions: seq<Session>, sessionId: string, deleteError: Option<string>): (r: Result<seq<Session>>)
    ensures deleteError.Some? <==> r.Err?
    ensures r.Err? ==> r.message == deleteError.value
    ensures r.Ok? ==> |r.value| == |sessions|
    ensures r.Ok? ==> forall i :: 0 <= i < |sessions| ==>
      r.value[i].id == sessions[i].id && (sessions[i].id == sessionId ==> r.value[i].title.None?)
  {
    match deleteError
    case Some(msg) => Err(msg)
    case None => Ok(ClearTitle(sessions, sessionId))
  }

  /** Retitling twice with the same message leaves the table as retitling once, and clearing afterwards drops the title. */
  lemma UpdateTitleIdempotent(sessions: seq<Session>, sessionId: string, firstMessage: string)
    ensures UpdateTitle(UpdateTitle(sessions, sessionId, firstMessage), sessionId, firstMessage) == UpdateTitle(sessions, sessionId, firstMessage)
    ensures ClearTitle(UpdateTitle(sessions, sessionId, firstMessage), sessionId) == ClearTitle(sessions, sessionId)
  {
    var once := UpdateTitle(sessions, sessionId, firstMessage);
    assert UpdateTitle(once, sessionId, firstMessage) == once;
    assert ClearTitle(once, sessionId) == ClearTitle(sessions, sessionId);
  }

  /**
   `getOrCreateSession`: the newest session for the plan and coach when
   there is one, otherwise the row the insert creates (with no title). Either
   query's error is thrown with its message.
   */
  function GetOrCreateSession(newest: Result<Option<seq<Session>>>, created: Result<Session>): (r: Result<Session>)
    ensures newest.Err? ==> r == Err(newest.message)
    ensures newest.Ok? && newest.value.Some? && |newest.value.value| > 0 ==> r == Ok(newest.value.value[0])
    ensures newest.Ok? && (newest.value.None? || |newest.value.value| == 0) ==> r == created
  {
    match newest
    case Err(msg) => Err(msg)
    case Ok(rows) => if rows.Some? && |rows.value| > 0 then Ok(rows.value[0]) else created
  }
}
