/** The advisor's side of one resumable session: the sequence gate that relays chunks to the
    requester, answers resume claims, and remembers a finished session as a tombstone. Ownership
    and token checks are not repeated here: the frames are those of the session's own machine. */
module AdvisorSessions {
  import opened Wrappers
  import opened ReplayJob

  const FINGERPRINT_MAX: nat := 512

  /** A hash of an accepted chunk, remembered in acceptance order. */
  datatype Fingerprint = Fingerprint(seqNo: nat, hash: nat)

  datatype Session =
    | Live(nextSeq: nat, detached: bool, fingerprints: seq<Fingerprint>)
    | Tombstone(nextSeq: nat)
    | Gone

  datatype Ending = Finished | Errored

  /** What the requester has been sent: chunk bodies in order, how the stream ended, and the summary
      in its final event. */
  datatype Relayed = Relayed(bodies: seq<string>, ending: Option<Ending>, summary: Option<Summary>)

  datatype Reply = NoReply | Ack(nextSeq: nat, completed: bool) | Verdict(status: Status, nextSeq: nat)

  function Close(relayed: Relayed): Relayed {
    relayed.(ending := Some(Errored))
  }

  function Find(fingerprints: seq<Fingerprint>, seqNo: nat): Option<nat> {
    if fingerprints == [] then None
    else if fingerprints[0].seqNo == seqNo then Some(fingerprints[0].hash)
    else Find(fingerprints[1..], seqNo)
  }

  /** Remember one more fingerprint, evicting the oldest when there are too many. */
  function Remember(fingerprints: seq<Fingerprint>, f: Fingerprint): seq<Fingerprint> {
    (if |fingerprints| >= FINGERPRINT_MAX then fingerprints[1..] else fingerprints) + [f]
  }

  /** Relay one chunk exactly once; `clientGone` says that writing to the requester fails. */
  function AcceptChunk(s: Session, relayed: Relayed, seqNo: nat, body: string, hash: nat, clientGone: bool)
    : (Session, Relayed, Reply)
  {
    if !s.Live? then (s, relayed, NoReply)
    else if seqNo < s.nextSeq then
      var known := Find(s.fingerprints, seqNo);
      if known.Some? && known.value != hash then (Gone, Close(relayed), NoReply)
      else (s, relayed, Ack(s.nextSeq, false))
    else if s.detached || s.nextSeq < seqNo then (s, relayed, Ack(s.nextSeq, false))
    else if clientGone then (Gone, Close(relayed), NoReply)
    else (s.(nextSeq := s.nextSeq + 1, fingerprints := Remember(s.fingerprints, Fingerprint(seqNo, hash))),
          relayed.(bodies := relayed.bodies + [body]),
          Ack(s.nextSeq + 1, false))
  }

  /** End of stream: accepted only after every produced chunk has been. */
  function AcceptCompletion(s: Session, relayed: Relayed, finalSeq: Option<nat>, summary: Summary, clientGone: bool)
    : (Session, Relayed, Reply)
  {
    if !s.Live? then (s, relayed, NoReply)
    else if finalSeq != Some(s.nextSeq) then (s, relayed, Ack(s.nextSeq, false))
    else if clientGone then (Gone, Close(relayed), NoReply)
    else (Tombstone(s.nextSeq), relayed.(ending := Some(Finished), summary := Some(summary)), Ack(s.nextSeq, true))
  }

  /** A provider's claim to take a session up again. */
  function ResumeClaim(s: Session, producedSeq: nat): (Session, Reply) {
    match s
    case Live(nextSeq, _, _) =>
      if producedSeq < nextSeq then (s, Verdict(Rejected, nextSeq))
      else (s.(detached := false), Verdict(Resume, nextSeq))
    case Tombstone(nextSeq) => (s, Verdict(Completed, nextSeq))
    case Gone => (s, Verdict(Rejected, 0))
  }

  function DetachSession(s: Session): Session {
    if s.Live? then s.(detached := true) else s
  }

  // ---------------------------------------------------------------- the session invariant

  /** The requester has received a prefix of what was produced, a live session counts it, and only
      a complete delivery is reported as finished. `closed` says that no more is produced. */
  ghost predicate SessionOk(s: Session, relayed: Relayed, produced: seq<string>, closed: bool, hash: string -> nat) {
    && relayed.bodies <= produced
    && (relayed.ending == Some(Finished) ==> closed && relayed.bodies == produced)
    && match s
       case Live(nextSeq, _, fingerprints) =>
         && relayed.ending.None? && nextSeq == |relayed.bodies|
         && forall f :: f in fingerprints ==> f.seqNo < nextSeq && f.hash == hash(produced[f.seqNo])
       case Tombstone(nextSeq) => relayed.ending == Some(Finished) && nextSeq == |produced|
       case Gone => relayed.ending.Some?
  }

  lemma FindMeans(fingerprints: seq<Fingerprint>, seqNo: nat)
    ensures var known := Find(fingerprints, seqNo);
            known.Some? ==> Fingerprint(seqNo, known.value) in fingerprints
  {}

  /** A genuine chunk never conflicts with what was accepted, keeps the invariant, and is answered
      with the number of chunks accepted so far. */
  lemma AcceptChunkOk(s: Session, relayed: Relayed, seqNo: nat, clientGone: bool,
                      produced: seq<string>, closed: bool, hash: string -> nat)
    requires SessionOk(s, relayed, produced, closed, hash) && seqNo < |produced|
    ensures var body := produced[seqNo];
            var (s', relayed', reply) := AcceptChunk(s, relayed, seqNo, body, hash(body), clientGone);
            && SessionOk(s', relayed', produced, closed, hash)
            && relayed'.bodies == relayed.bodies +
                 (if s.Live? && !s.detached && seqNo == |relayed.bodies| && !clientGone then [produced[seqNo]] else [])
            && (relayed.ending.Some? ==> relayed' == relayed)
            && (s.Live? && s'.Gone? <==>
                  s.Live? && !s.detached && seqNo == |relayed.bodies| && clientGone)
            && (s.Live? && s'.Gone? ==> relayed'.ending == Some(Errored))
            && (s' == s || s'.Gone? || (s'.Live? && !s'.detached && seqNo == |relayed.bodies|))
            && (reply == NoReply <==> !s.Live? || s'.Gone?)
            && (reply != NoReply ==> s'.Live? && reply == Ack(|relayed'.bodies|, false))
  {
    if s.Live? { FindMeans(s.fingerprints, seqNo); }
  }

  /** A genuine completion finishes the stream only when everything produced has been relayed. */
  lemma AcceptCompletionOk(
      s: Session, relayed: Relayed, summary: Summary, clientGone: bool, produced: seq<string>, hash: string -> nat)
    requires SessionOk(s, relayed, produced, true, hash)
    ensures var (s', relayed', reply) := AcceptCompletion(s, relayed, Some(|produced|), summary, clientGone);
            && SessionOk(s', relayed', produced, true, hash)
            && relayed'.bodies == relayed.bodies
            && reply == (if !s.Live? || s'.Gone? then NoReply else Ack(|relayed.bodies|, s'.Tombstone?))
            && relayed'.ending == (if !s.Live? || relayed.bodies != produced then relayed.ending
                                   else Some(if clientGone then Errored else Finished))
            && (s'.Live? ==> s' == s)
            && (s'.Tombstone? <==> s.Tombstone? || (s.Live? && relayed.bodies == produced && !clientGone))
            && relayed'.summary == (if s.Live? && s'.Tombstone? then Some(summary) else relayed.summary)
  {}

  /** Production going on does not disturb a session. */
  lemma SessionOkGrows(s: Session, relayed: Relayed, produced: seq<string>, closed: bool, hash: string -> nat,
                       produced': seq<string>, closed': bool)
    requires SessionOk(s, relayed, produced, closed, hash)
    requires produced <= produced' && (closed ==> closed') && (closed ==> produced' == produced)
    ensures SessionOk(s, relayed, produced', closed', hash)
  {}

  // ---------------------------------------------------------------- resume claims

  /** A claim that is behind what the requester already has is rejected; any other one takes the session
      up again at exactly the number of chunks relayed. A finished session says so, and one that is gone
      is rejected. */
  lemma ResumeClaimOk(
      s: Session, relayed: Relayed, claimed: nat, produced: seq<string>, closed: bool, hash: string -> nat)
    requires SessionOk(s, relayed, produced, closed, hash)
    ensures var (s', reply) := ResumeClaim(s, claimed);
      && reply.Verdict? && SessionOk(s', relayed, produced, closed, hash)
      && (reply.status == Resume <==> s.Live? && |relayed.bodies| <= claimed)
      && (reply.status == Resume ==>
            s'.Live? && !s'.detached && s'.fingerprints == s.fingerprints && reply.nextSeq == |relayed.bodies|)
      && (reply.status == Completed <==> s.Tombstone?)
      && (reply.status == Completed ==> relayed.ending == Some(Finished) && reply.nextSeq == |produced|)
      && (reply.status == Rejected ==> reply.nextSeq == if s.Live? then |relayed.bodies| else 0)
      && (reply.status != Resume ==> s' == s)
  {}

  // ---------------------------------------------------------------- replayed chunks

  /** The fingerprints of the last 512 chunks relayed, or of all when there are fewer, oldest first. */
  ghost predicate Remembers(s: Session, relayed: Relayed, hash: string -> nat) {
    s.Live? ==>
      var n, k := |relayed.bodies|, |s.fingerprints|;
      && s.nextSeq == n && k == (if n < 512 then n else 512)
      && forall i :: 0 <= i < k ==> s.fingerprints[i] == Fingerprint(n - k + i, hash(relayed.bodies[n - k + i]))
  }

  lemma AcceptKeepsRemembering(
      s: Session, relayed: Relayed, seqNo: nat, body: string, clientGone: bool, hash: string -> nat)
    requires Remembers(s, relayed, hash)
    ensures var (s', relayed', _) := AcceptChunk(s, relayed, seqNo, body, hash(body), clientGone);
      Remembers(s', relayed', hash)
  {}

  lemma {:induction false} FindFirst(fingerprints: seq<Fingerprint>, i: nat)
    requires i < |fingerprints| && forall j :: 0 <= j < i ==> fingerprints[j].seqNo != fingerprints[i].seqNo
    ensures Find(fingerprints, fingerprints[i].seqNo) == Some(fingerprints[i].hash)
  {
    if i > 0 { FindFirst(fingerprints[1..], i - 1); }
  }

  /** A chunk that comes again under the number of one of the last 512 relayed is told by its hash: the
      same one is answered with the count so far and changes nothing, a different one ends the session
      with an error. */
  lemma ReplayIsTold(s: Session, relayed: Relayed, seqNo: nat, body: string, clientGone: bool, hash: string -> nat)
    requires s.Live? && Remembers(s, relayed, hash) && |relayed.bodies| - 512 <= seqNo < |relayed.bodies|
    ensures AcceptChunk(s, relayed, seqNo, body, hash(body), clientGone) ==
      if hash(body) == hash(relayed.bodies[seqNo]) then (s, relayed, Ack(|relayed.bodies|, false))
      else (Gone, relayed.(ending := Some(Errored)), NoReply)
  {
    FindFirst(s.fingerprints, seqNo - (|relayed.bodies| - |s.fingerprints|));
  }
}
