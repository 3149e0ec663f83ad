/** A newer registration fences the sockets before it: from then on nothing reaches the requester until
    the advisor has granted a resume claim that came over the registered socket. */
module StreamFencing {
  import opened Wrappers
  import opened ReplayJob
  import opened AdvisorSessions
  import opened StreamDelivery

  /** The session takes chunks. */
  predicate Open(w: World) {
    w.session.Live? && !w.session.detached
  }

  /** The first frame of the socket, which is delivered next. */
  predicate Delivers(w: World, e: Event) {
    e.Deliver? && e.socket < |w.up| && w.up[e.socket] != [] && w.registered == Some(e.socket)
  }

  lemma FrameFences(hash: string -> nat, w: World, socket: nat, frame: Up, clientGone: bool)
    requires w.registered.None? ==> !Open(w)
    ensures var w' := HandleFrame(hash, w, socket, frame, clientGone);
      && (w'.registered.None? || w'.registered != w.registered ==> !Open(w'))
      && (w'.relayed != w.relayed ==> w.registered == Some(socket))
      && (w'.relayed.bodies != w.relayed.bodies ==> frame.ChunkFrame? && Open(w))
      && (!Open(w) && Open(w') ==> w.registered == Some(socket) && frame.Claim? && w.session.Live?)
  {}

  /** Without a registration, and whenever it changes, the session takes no chunks. Only frames of the
      registered socket, and the expiry of the session, reach the requester; a chunk does only when the
      session takes chunks, and it takes chunks again only after a resume claim from that socket. */
  lemma StepFences(enc: Encoder, hash: string -> nat, w: World, e: Event)
    requires w.registered.None? ==> !Open(w)
    ensures var w' := Step(enc, hash, w, e);
      && (w'.registered.None? || w'.registered != w.registered ==> !Open(w'))
      && (w'.relayed != w.relayed ==> Delivers(w, e) || e.SessionExpired?)
      && (w'.relayed.bodies != w.relayed.bodies ==> Delivers(w, e) && w.up[e.socket][0].ChunkFrame? && Open(w))
      && (!Open(w) && Open(w') ==> Delivers(w, e) && w.up[e.socket][0].Claim? && w.session.Live?)
  {
    if Enabled(w, e) && e.Deliver? {
      FrameFences(hash, w.(up := w.up[e.socket := w.up[e.socket][1..]]), e.socket, w.up[e.socket][0], e.clientGone);
    }
  }

  /** What the network and the advisor's timers may do at any time: the provider's side of a broken socket
      forgets it and the replies on it; an older socket may lose any tail of what is under way; what is
      under way on a socket that the advisor closes is gone, and with it the registration over it; a
      session may expire, and a live stream then ends with an error. */
  lemma BreakingLoses(enc: Encoder, hash: string -> nat, w: World, e: Event)
    ensures var w' := Step(enc, hash, w, e);
      && (e.Disconnect? ==> w.socket.None? || (w'.socket.None? && w'.down == [] && w'.up == w.up))
      && (e.LoseTail? && e.socket < |w.up| && w.socket != Some(e.socket) && e.keep <= |w.up[e.socket]| ==>
            w'.up == w.up[e.socket := w.up[e.socket][..e.keep]])
      && (e.AdvisorClose? && e.socket < |w.up| ==>
            && w'.up == w.up[e.socket := []]
            && w'.registered == if w.registered == Some(e.socket) then None else w.registered)
      && (e.SessionExpired? ==>
            w'.session.Gone? && w'.relayed.ending == if w.session.Live? then Some(Errored) else w.relayed.ending)
  {}

  lemma {:induction false} NoRegistrationNoChunks(enc: Encoder, hash: string -> nat, token: string, events: seq<Event>)
    ensures Run(enc, hash, token, events).registered.None? ==> !Open(Run(enc, hash, token, events))
  {
    if events != [] {
      var last := |events| - 1;
      NoRegistrationNoChunks(enc, hash, token, events[..last]);
      StepFences(enc, hash, Run(enc, hash, token, events[..last]), events[last]);
    }
  }

  lemma StepOfRun(enc: Encoder, hash: string -> nat, token: string, events: seq<Event>, n: nat)
    requires n < |events|
    ensures Run(enc, hash, token, events[..n + 1]) == Step(enc, hash, Run(enc, hash, token, events[..n]), events[n])
  {
    assert events[..n + 1][..n] == events[..n];
  }

  lemma {:induction false} OpenedInBetween(
      enc: Encoder, hash: string -> nat, token: string, events: seq<Event>, m: nat, n: nat) returns (k: nat)
    requires m < n <= |events|
    requires !Open(Run(enc, hash, token, events[..m])) && Open(Run(enc, hash, token, events[..n]))
    ensures m <= k < n
    ensures !Open(Run(enc, hash, token, events[..k])) && Open(Run(enc, hash, token, events[..k + 1]))
    decreases n
  {
    if Open(Run(enc, hash, token, events[..n - 1])) {
      k := OpenedInBetween(enc, hash, token, events, m, n - 1);
    } else {
      k := n - 1;
    }
  }

  /** When event m has changed the registration and event n relays a chunk, that chunk came over the socket
      registered then, and some event k between them delivered a resume claim over the socket registered
      then, with which the advisor took the session up again. */
  lemma RelayedOnlyAfterAClaim(
      enc: Encoder, hash: string -> nat, token: string, events: seq<Event>, m: nat, n: nat) returns (k: nat)
    requires m < n < |events|
    requires Run(enc, hash, token, events[..m + 1]).registered != Run(enc, hash, token, events[..m]).registered
    requires Run(enc, hash, token, events[..n + 1]).relayed.bodies != Run(enc, hash, token, events[..n]).relayed.bodies
    ensures Delivers(Run(enc, hash, token, events[..n]), events[n])
    ensures m < k < n && Delivers(Run(enc, hash, token, events[..k]), events[k])
    ensures Run(enc, hash, token, events[..k]).up[events[k].socket][0].Claim?
    ensures !Open(Run(enc, hash, token, events[..k])) && Open(Run(enc, hash, token, events[..k + 1]))
  {
    StepOfRun(enc, hash, token, events, m);
    StepOfRun(enc, hash, token, events, n);
    NoRegistrationNoChunks(enc, hash, token, events[..m]);
    NoRegistrationNoChunks(enc, hash, token, events[..n]);
    StepFences(enc, hash, Run(enc, hash, token, events[..m]), events[m]);
    StepFences(enc, hash, Run(enc, hash, token, events[..n]), events[n]);
    k := OpenedInBetween(enc, hash, token, events, m + 1, n);
    StepOfRun(enc, hash, token, events, k);
    NoRegistrationNoChunks(enc, hash, token, events[..k]);
    StepFences(enc, hash, Run(enc, hash, token, events[..k]), events[k]);
  }
}
