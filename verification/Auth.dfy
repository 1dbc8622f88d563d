/**
 * Logging in once at a time. `getTicket`, `authenticate`, `forceRefresh` and
 * `login` run from one await to the next; the steps below are those stretches,
 * and the events of a run may come in any order.
 */
module Auth {
  import opened Options

  const TICKET_LIFETIME_MS := 2 * 60 * 60 * 1000
  const TICKET_RENEW_MARGIN_MS := 15 * 60 * 1000

  datatype Ticket = Ticket(ticket: string, csrfToken: string, username: string, expiresAt: int)

  /** What a login request carries in the password field. */
  datatype Post = WithPassword | WithTicket(ticket: string)

  datatype Payload = Payload(ticket: string, csrfToken: string, username: Option<string>)

  /** What comes back from a login request: a ticket, a refusal, or no answer that can be read. */
  datatype Reply = Granted(payload: Payload) | Refused | Broken

  datatype Outcome = Cached(ticket: Ticket) | Failed

  /** A login awaits a reply, has settled, or has also been cleared from `pending`. */
  datatype Stage = Renewing | Fresh | Settled(outcome: Outcome) | Finished(outcome: Outcome)

  /** A reply and when it came. */
  datatype Heard = Heard(reply: Reply, at: int)

  datatype Attempt = Attempt(stage: Stage, posts: seq<Post>, replies: seq<Heard>)

  /** A forced refresh waiting for a login in flight, with the ticket that was cached when it was called. */
  datatype Waiter = Waiter(login: nat, discarded: Option<string>)

  /** For whom `authenticate` was called; a forced refresh discards the ticket cached when it was called. */
  datatype Caller = Plain | Forced(discarded: Option<string>, awaited: Option<nat>)

  /** One call to `authenticate`: the login it returned, whether it started it, and for whom. */
  datatype Join = Join(login: nat, started: bool, caller: Caller)

  /**
   * `logins` and `joins` are the history; `waiters` are the forced refreshes
   * waiting for a login in flight; `writes` are the logins in the order in
   * which they wrote the cache.
   */
  datatype State = State(
    credential: Option<string>,
    current: Option<Ticket>,
    pending: Option<nat>,
    logins: seq<Attempt>,
    writes: seq<nat>,
    waiters: seq<Waiter>,
    joins: seq<Join>)

  datatype Event =
    | GetTicket(now: int)
    | Authenticate
    | ForceRefresh
    | Resume(waiter: nat)
    | Answer(reply: Reply, now: int)
    | Clear
    | Destroy

  // --- The stretches of code ---

  /** The login up to its first await: a renewal if a ticket is cached, whatever its age. */
  function BeginLogin(s: State): Attempt {
    if s.credential.None? then Attempt(Settled(Failed), [], [])
    else if s.current.Some? then Attempt(Renewing, [WithTicket(s.current.value.ticket)], [])
    else Attempt(Fresh, [WithPassword], [])
  }

  /** `authenticate`: the request in flight, or a new one. */
  function Joining(s: State, caller: Caller): State {
    if s.pending.Some? then s.(joins := s.joins + [Join(s.pending.value, false, caller)])
    else
      var id := |s.logins|;
      s.(pending := Some(id), logins := s.logins + [BeginLogin(s)], joins := s.joins + [Join(id, true, caller)])
  }

  function CachedTicket(s: State): Option<string> {
    if s.current.Some? then Some(s.current.value.ticket) else None
  }

  predicate IsFresh(ticket: Ticket, now: int) {
    now < ticket.expiresAt - TICKET_RENEW_MARGIN_MS
  }

  function Cache(payload: Payload, fallbackUsername: string, now: int): Ticket {
    Ticket(payload.ticket, payload.csrfToken,
           if payload.username.Some? then payload.username.value else fallbackUsername,
           now + TICKET_LIFETIME_MS)
  }

  function UpdateLogin(s: State, id: nat, stage: Stage, more: seq<Post>, heard: seq<Heard>): State
    requires id < |s.logins|
  {
    s.(logins := s.logins[id := Attempt(stage, s.logins[id].posts + more, s.logins[id].replies + heard)])
  }

  /** A login resumed by the reply to its request. */
  function Answered(s: State, id: nat, reply: Reply, now: int): State
    requires id < |s.logins| && s.credential.Some?
  {
    var heard := [Heard(reply, now)];
    match reply
    case Granted(payload) =>
      var ticket := Cache(payload, s.credential.value, now);
      UpdateLogin(s, id, Settled(Cached(ticket)), [], heard).(current := Some(ticket), writes := s.writes + [id])
    case Refused =>
      if s.logins[id].stage.Renewing? then UpdateLogin(s, id, Fresh, [WithPassword], heard).(current := None)
      else UpdateLogin(s, id, Settled(Failed), [], heard)
    case Broken => UpdateLogin(s, id, Settled(Failed), [], heard)
  }

  predicate AwaitsReply(l: Attempt) {
    l.stage.Renewing? || l.stage.Fresh?
  }

  /** Whether an event can happen now. */
  predicate Enabled(s: State, e: Event) {
    match e
    case Resume(w) =>
      w < |s.waiters| && s.waiters[w].login < |s.logins| && s.logins[s.waiters[w].login].stage.Finished?
    case Answer(_, _) => s.pending.Some? && s.pending.value < |s.logins| && AwaitsReply(s.logins[s.pending.value])
                         && s.credential.Some?
    case Clear => s.pending.Some? && s.pending.value < |s.logins| && s.logins[s.pending.value].stage.Settled?
    case _ => true
  }

  function Step(s: State, e: Event): State
    requires Enabled(s, e)
  {
    match e
    case GetTicket(now) =>
      if s.current.Some? && IsFresh(s.current.value, now) then s else Joining(s, Plain)
    case Authenticate => Joining(s, Plain)
    case ForceRefresh =>
      if s.pending.Some? then s.(waiters := s.waiters + [Waiter(s.pending.value, CachedTicket(s))])
      else Joining(s.(current := None), Forced(CachedTicket(s), None))
    case Resume(w) =>
      Joining(s.(current := None, waiters := s.waiters[..w] + s.waiters[w + 1..]),
              Forced(s.waiters[w].discarded, Some(s.waiters[w].login)))
    case Answer(reply, now) => Answered(s, s.pending.value, reply, now)
    case Clear =>
      var id := s.pending.value;
      UpdateLogin(s.(pending := None), id, Finished(s.logins[id].stage.outcome), [], [])
    case Destroy => s.(current := None)
  }

  // --- What holds in every interleaving ---

  /** `pending` is set exactly while a login has started and not been cleared, and that login is the last. */
  predicate OneLive(s: State) {
    && (s.pending.Some? ==> s.pending.value == |s.logins| - 1)
    && forall i :: 0 <= i < |s.logins| ==> (s.pending == Some(i) <==> !s.logins[i].stage.Finished?)
  }

  /** A login's requests: at most a renewal, then the password. */
  predicate PostsInOrder(l: Attempt) {
    match l.stage
    case Renewing => |l.posts| == 1 && l.posts[0].WithTicket?
    case Fresh =>
      l.posts == [WithPassword] || (|l.posts| == 2 && l.posts[0].WithTicket? && l.posts[1] == WithPassword)
    case _ =>
      |l.posts| <= 2 && (|l.posts| == 2 ==> l.posts[0].WithTicket? && l.posts[1] == WithPassword)
  }

  function OutcomeOf(l: Attempt): Option<Outcome> {
    match l.stage
    case Settled(o) => Some(o)
    case Finished(o) => Some(o)
    case _ => None
  }

  /** Cache writes land in login-start order, one a login, and only a login that got a ticket writes. */
  predicate WritesInOrder(s: State) {
    && (forall k :: 0 <= k < |s.writes| ==>
          s.writes[k] < |s.logins| && OutcomeOf(s.logins[s.writes[k]]).Some?
          && OutcomeOf(s.logins[s.writes[k]]).value.Cached?)
    && forall j, k :: 0 <= j < k < |s.writes| ==> s.writes[j] < s.writes[k]
  }

  /** What is cached is what the last login to write got, never an older ticket. */
  predicate CacheIsLatest(s: State) {
    s.current.Some? ==>
      && |s.writes| > 0 && s.writes[|s.writes| - 1] < |s.logins|
      && OutcomeOf(s.logins[s.writes[|s.writes| - 1]]) == Some(Cached(s.current.value))
  }

  predicate OnlyPassword(l: Attempt) {
    forall k :: 0 <= k < |l.posts| ==> l.posts[k] == WithPassword
  }

  /** A login started by a forced refresh posts only the password, and comes after the one it waited for. */
  predicate JoinsKept(s: State) {
    forall k :: 0 <= k < |s.joins| ==>
      var j := s.joins[k];
      && j.login < |s.logins|
      && (j.started && j.caller.Forced? ==> OnlyPassword(s.logins[j.login]) && !s.logins[j.login].stage.Renewing?)
      && (j.caller.Forced? && j.caller.awaited.Some? ==> j.caller.awaited.value < j.login)
  }

  predicate WaitersKept(s: State) {
    forall k :: 0 <= k < |s.waiters| ==> s.waiters[k].login < |s.logins|
  }

  predicate Inv(s: State) {
    && OneLive(s) && WritesInOrder(s) && CacheIsLatest(s) && JoinsKept(s) && WaitersKept(s)
    && (forall i :: 0 <= i < |s.logins| ==> PostsInOrder(s.logins[i]))
    && (s.credential.None? ==> s.current.None? && forall i :: 0 <= i < |s.logins| ==> !AwaitsReply(s.logins[i]))
  }

  function Start(credential: Option<string>): State {
    State(credential, None, None, [], [], [], [])
  }

  lemma StartInv(credential: Option<string>)
    ensures Inv(Start(credential))
  {
  }

  /** Dropping the cached ticket, or a waiter, changes nothing else. */
  lemma DropKeeps(s: State, waiters: seq<Waiter>)
    requires Inv(s) && forall w :: w in waiters ==> w in s.waiters
    ensures Inv(s.(current := None, waiters := waiters))
  {
    var t := s.(current := None, waiters := waiters);
    forall k | 0 <= k < |waiters|
      ensures waiters[k].login < |s.logins|
    {
      assert waiters[k] in s.waiters;
    }
  }

  lemma JoiningKeeps(s: State, caller: Caller)
    requires Inv(s) && (caller.Forced? && s.pending.None? ==> s.current.None?)
    requires caller.Forced? && caller.awaited.Some? ==>
               caller.awaited.value < |s.logins| && s.logins[caller.awaited.value].stage.Finished?
    ensures Inv(Joining(s, caller))
  {
    if s.pending.None? {
      var t := Joining(s, caller);
      assert forall i :: 0 <= i < |s.logins| ==> t.logins[i] == s.logins[i];
    }
  }

  /** The live login has not written the cache. */
  lemma LiveIsUnwritten(s: State)
    requires Inv(s) && s.pending.Some? && AwaitsReply(s.logins[s.pending.value])
    ensures forall k :: 0 <= k < |s.writes| ==> s.writes[k] < s.pending.value
  {
  }

  /** A login that gets a ticket writes the cache last. */
  lemma GrantedKeeps(s: State, payload: Payload, now: int)
    requires Inv(s) && Enabled(s, Answer(Granted(payload), now))
    ensures Inv(Answered(s, s.pending.value, Granted(payload), now))
  {
    LiveIsUnwritten(s);
    var id := s.pending.value;
    var t := Answered(s, id, Granted(payload), now);
    assert forall i :: 0 <= i < |s.logins| && i != id ==> t.logins[i] == s.logins[i];
  }

  /** A login that gets none leaves the cache alone or empty. */
  lemma DeniedKeeps(s: State, reply: Reply, now: int)
    requires Inv(s) && Enabled(s, Answer(reply, now)) && !reply.Granted?
    ensures Inv(Answered(s, s.pending.value, reply, now))
  {
    LiveIsUnwritten(s);
    var id := s.pending.value;
    var t := Answered(s, id, reply, now);
    assert forall i :: 0 <= i < |s.logins| && i != id ==> t.logins[i] == s.logins[i];
  }

  lemma ClearKeeps(s: State)
    requires Inv(s) && Enabled(s, Clear)
    ensures Inv(Step(s, Clear))
  {
    var id := s.pending.value;
    var t := Step(s, Clear);
    assert forall i :: 0 <= i < |s.logins| && i != id ==> t.logins[i] == s.logins[i];
  }

  lemma ForceKeeps(s: State)
    requires Inv(s)
    ensures Inv(Step(s, ForceRefresh))
  {
    if s.pending.None? {
      DropKeeps(s, s.waiters);
      JoiningKeeps(s.(current := None), Forced(CachedTicket(s), None));
    }
  }

  lemma ResumeKeeps(s: State, w: nat)
    requires Inv(s) && Enabled(s, Resume(w))
    ensures Inv(Step(s, Resume(w)))
  {
    var rest := s.waiters[..w] + s.waiters[w + 1..];
    DropKeeps(s, rest);
    JoiningKeeps(s.(current := None, waiters := rest), Forced(s.waiters[w].discarded, Some(s.waiters[w].login)));
  }

  lemma AnswerKeeps(s: State, reply: Reply, now: int)
    requires Inv(s) && Enabled(s, Answer(reply, now))
    ensures Inv(Answered(s, s.pending.value, reply, now))
  {
    if reply.Granted? {
      GrantedKeeps(s, reply.payload, now);
    } else {
      DeniedKeeps(s, reply, now);
    }
  }

  lemma StepKeeps(s: State, e: Event)
    requires Inv(s) && Enabled(s, e)
    ensures Inv(Step(s, e))
  {
    match e
    case GetTicket(now) => JoiningKeeps(s, Plain);
    case Authenticate => JoiningKeeps(s, Plain);
    case ForceRefresh => ForceKeeps(s);
    case Resume(w) => ResumeKeeps(s, w);
    case Answer(reply, now) => AnswerKeeps(s, reply, now);
    case Clear => ClearKeeps(s);
    case Destroy => DropKeeps(s, s.waiters);
  }

  // --- Runs ---

  /** What can happen next does; what cannot is passed over. */
  function Run(s: State, events: seq<Event>): State
    decreases |events|
  {
    if events == [] then s
    else Run(if Enabled(s, events[0]) then Step(s, events[0]) else s, events[1..])
  }

  lemma {:induction false} RunKeeps(s: State, events: seq<Event>)
    requires Inv(s)
    ensures Inv(Run(s, events))
    decreases |events|
  {
    if events != [] {
      if Enabled(s, events[0]) {
        StepKeeps(s, events[0]);
        RunKeeps(Step(s, events[0]), events[1..]);
      } else {
        RunKeeps(s, events[1..]);
      }
    }
  }

  /**
   * In every interleaving at most one login is live and `pending` names it,
   * the cache is written in login-start order and holds the last ticket got,
   * and a login that a forced refresh started posts only the password.
   */
  lemma SingleFlight(credential: Option<string>, events: seq<Event>)
    ensures var s := Run(Start(credential), events);
            && (forall i :: 0 <= i < |s.logins| - 1 ==> s.logins[i].stage.Finished?)
            && (forall i :: 0 <= i < |s.logins| ==> (s.pending == Some(i) <==> !s.logins[i].stage.Finished?))
            && (forall j, k :: 0 <= j < k < |s.writes| ==> s.writes[j] < s.writes[k])
            && CacheIsLatest(s)
            && (forall k :: 0 <= k < |s.joins| && s.joins[k].caller.Forced? && s.joins[k].started ==>
                  s.joins[k].login < |s.logins| && OnlyPassword(s.logins[s.joins[k].login]))
            && (forall k :: 0 <= k < |s.joins| && s.joins[k].caller.Forced? && s.joins[k].caller.awaited.Some? ==>
                  s.joins[k].caller.awaited.value < s.joins[k].login)
  {
    StartInv(credential);
    RunKeeps(Start(credential), events);
  }

  // --- The ticket a refresh may still carry ---

  /** A login posts a ticket in its first request or not at all. */
  predicate Carries(l: Attempt, ticket: string) {
    l.posts != [] && l.posts[0] == WithTicket(ticket)
  }

  lemma StepCarries(s: State, e: Event, id: nat, ticket: string)
    requires Inv(s) && Enabled(s, e) && id < |s.logins|
    ensures id < |Step(s, e).logins|
    ensures Carries(Step(s, e).logins[id], ticket) == Carries(s.logins[id], ticket)
  {
    assert PostsInOrder(s.logins[id]);
  }

  /** Which ticket a login posts, if any, is settled when it starts. */
  lemma {:induction false} RunCarries(s: State, events: seq<Event>, id: nat, ticket: string)
    requires Inv(s) && id < |s.logins|
    ensures id < |Run(s, events).logins|
    ensures WithTicket(ticket) in Run(s, events).logins[id].posts <==> Carries(s.logins[id], ticket)
    decreases |events|
  {
    if events == [] {
      assert PostsInOrder(s.logins[id]);
    } else if Enabled(s, events[0]) {
      StepCarries(s, events[0], id, ticket);
      StepKeeps(s, events[0]);
      RunCarries(Step(s, events[0]), events[1..], id, ticket);
    } else {
      RunCarries(s, events[1..], id, ticket);
    }
  }

  /** A forced refresh logs in now: nothing is in flight, or the login it waited for has landed. */
  predicate LogsIn(s: State, e: Event) {
    Enabled(s, e) && ((e.ForceRefresh? && s.pending.None?) || e.Resume?)
  }

  /** The ticket that was cached when the forced refresh that logs in now was called. */
  function Discarded(s: State, e: Event): Option<string>
    requires LogsIn(s, e)
  {
    if e.Resume? then s.waiters[e.waiter].discarded else CachedTicket(s)
  }

  /** The login in flight, if any, started by posting `ticket`. */
  predicate RenewsWith(s: State, ticket: string) {
    s.pending.Some? && s.pending.value < |s.logins| && Carries(s.logins[s.pending.value], ticket)
  }

  /**
   * The login a forced refresh comes back with posts a given ticket, at any
   * later time, exactly when the refresh shares a login in flight that
   * started with it.
   */
  lemma RefreshPostsIff(s: State, e: Event, events: seq<Event>, ticket: string)
    requires Inv(s) && LogsIn(s, e)
    ensures var k, t := |s.joins|, Step(s, e);
            && |t.joins| == k + 1 && t.joins[k].login < |t.logins| && t.joins[k].login < |Run(t, events).logins|
            && t.joins[k].caller.Forced? && t.joins[k].caller.discarded == Discarded(s, e)
            && (WithTicket(ticket) in Run(t, events).logins[t.joins[k].login].posts <==> RenewsWith(s, ticket))
  {
    StepKeeps(s, e);
    RunCarries(Step(s, e), events, Step(s, e).joins[|s.joins|].login, ticket);
  }

  /** The login a forced refresh came back with has posted the ticket the refresh was called to discard. */
  predicate PostsDiscarded(s: State, j: Join) {
    && j.caller.Forced? && j.caller.discarded.Some? && j.login < |s.logins|
    && WithTicket(j.caller.discarded.value) in s.logins[j.login].posts
  }

  /**
   * So it ever posts that very ticket exactly when another caller has begun
   * renewing with it by the time the refresh logs in, and is still in flight.
   */
  lemma RefreshCarriesTicketIff(s: State, e: Event, events: seq<Event>)
    requires Inv(s) && LogsIn(s, e)
    ensures |Step(s, e).joins| == |s.joins| + 1
    ensures PostsDiscarded(Run(Step(s, e), events), Step(s, e).joins[|s.joins|])
            <==> Discarded(s, e).Some? && RenewsWith(s, Discarded(s, e).value)
  {
    RefreshPostsIff(s, e, events, if Discarded(s, e).Some? then Discarded(s, e).value else "");
  }

  /** One way to get there: a renewal breaks off, and another caller renews before the refresh resumes. */
  lemma SharedRefreshCarriesOldTicket(payload: Payload) returns (events: seq<Event>)
    ensures var s := Run(Start(Some("root@pam")), events);
            && |s.joins| == 4 && s.joins[3].caller.Forced? && s.joins[3].caller.discarded == Some(payload.ticket)
            && !s.joins[3].started && PostsDiscarded(s, s.joins[3])
  {
    var s0 := Start(Some("root@pam"));
    var front, back :=
      [Authenticate, Answer(Granted(payload), 0), Clear, Authenticate],
      [ForceRefresh, Answer(Broken, 1), Clear, Authenticate, Resume(0)];
    events := front + back;
    RunAppend(s0, front, back);
    var s1 := FirstRenewal(payload);
    SecondRenewal(s1, payload);
  }

  lemma {:induction false} RunAppend(s: State, a: seq<Event>, b: seq<Event>)
    ensures Run(s, a + b) == Run(Run(s, a), b)
    decreases |a|
  {
    if a == [] {
      assert a + b == b;
    } else {
      assert (a + b)[1..] == a[1..] + b;
      RunAppend(if Enabled(s, a[0]) then Step(s, a[0]) else s, a[1..], b);
    }
  }

  lemma FirstRenewal(payload: Payload) returns (s: State)
    ensures s == Run(Start(Some("root@pam")), [Authenticate, Answer(Granted(payload), 0), Clear, Authenticate])
    ensures s.credential.Some? && s.current.Some? && s.current.value.ticket == payload.ticket
    ensures s.pending == Some(1) && |s.logins| == 2 && s.logins[1].stage.Renewing? && s.waiters == [] && |s.joins| == 2
  {
    var s0 := Start(Some("root@pam"));
    var s1 := Step(s0, Authenticate);
    var s2 := Step(s1, Answer(Granted(payload), 0));
    var s3 := Step(s2, Clear);
    s := Step(s3, Authenticate);
    assert Run(s0, [Authenticate, Answer(Granted(payload), 0), Clear, Authenticate])
           == Run(s1, [Answer(Granted(payload), 0), Clear, Authenticate])
           == Run(s2, [Clear, Authenticate]) == Run(s3, [Authenticate]) == Run(s, []);
  }

  lemma SecondRenewal(s: State, payload: Payload)
    requires s.credential.Some? && s.current.Some? && s.current.value.ticket == payload.ticket
    requires s.pending == Some(1) && |s.logins| == 2 && s.logins[1].stage.Renewing? && s.waiters == [] && |s.joins| == 2
    ensures var t := Run(s, [ForceRefresh, Answer(Broken, 1), Clear, Authenticate, Resume(0)]);
            && |t.joins| == 4 && t.joins[3] == Join(2, false, Forced(Some(payload.ticket), Some(1)))
            && |t.logins| == 3 && t.logins[2].posts == [WithTicket(payload.ticket)]
  {
    var s1 := Step(s, ForceRefresh);
    var s2 := Step(s1, Answer(Broken, 1));
    var s3 := Step(s2, Clear);
    var s4 := Step(s3, Authenticate);
    var t := Step(s4, Resume(0));
    assert Run(s, [ForceRefresh, Answer(Broken, 1), Clear, Authenticate, Resume(0)])
           == Run(s1, [Answer(Broken, 1), Clear, Authenticate, Resume(0)])
           == Run(s2, [Clear, Authenticate, Resume(0)]) == Run(s3, [Authenticate, Resume(0)])
           == Run(s4, [Resume(0)]) == Run(t, []);
  }

  /** A ticket served from the cache is the latest one got, and has more than a quarter of an hour left. */
  lemma ServedFromCache(s: State, now: int)
    requires Inv(s)
    ensures Step(s, GetTicket(now)) == s
            <==> s.current.Some? && now + 900000 < s.current.value.expiresAt
    ensures Step(s, GetTicket(now)) != s ==> |Step(s, GetTicket(now)).joins| == |s.joins| + 1
    ensures Step(s, GetTicket(now)) == s ==>
              |s.writes| > 0 && s.writes[|s.writes| - 1] < |s.logins|
              && OutcomeOf(s.logins[s.writes[|s.writes| - 1]]) == Some(Cached(s.current.value))
  {
  }

  // --- The object ---

  /** What a call comes back with at its first await, or at once. */
  datatype Reached = Served(ticket: Ticket) | Shares(login: nat) | WaitsFor(login: nat)

  class PveAuth {
    const credential: Option<string>
    var currentTicket: Option<Ticket>
    var pending: Option<nat>
    /** The logins, each where it stands. */
    var logins: seq<Attempt>
    ghost var writes: seq<nat>
    ghost var waiters: seq<Waiter>
    ghost var joins: seq<Join>

    ghost function Value(): State
      reads this
    {
      State(credential, currentTicket, pending, logins, writes, waiters, joins)
    }

    ghost predicate Valid()
      reads this
    {
      Inv(Value())
    }

    constructor (credential: Option<string>)
      ensures Valid() && Value() == Start(credential)
    {
      this.credential := credential;
      currentTicket, pending, logins := None, None, [];
      writes, waiters, joins := [], [], [];
    }

    /** `login` up to its first await. */
    method Login() returns (id: nat)
      modifies this`logins
      ensures id == |old(logins)| && logins == old(logins) + [BeginLogin(old(Value()))]
    {
      id := |logins|;
      if credential.None? {
        logins := logins + [Attempt(Settled(Failed), [], [])];
      } else if currentTicket.Some? {
        logins := logins + [Attempt(Renewing, [WithTicket(currentTicket.value.ticket)], [])];
      } else {
        logins := logins + [Attempt(Fresh, [WithPassword], [])];
      }
    }

    method Share(ghost caller: Caller) returns (id: nat)
      modifies this`pending, this`logins, this`joins
      ensures Value() == Joining(old(Value()), caller) && pending == Some(id)
    {
      if pending.Some? {
        joins := joins + [Join(pending.value, false, caller)];
        return pending.value;
      }
      id := Login();
      pending := Some(id);
      joins := joins + [Join(id, true, caller)];
    }

    method Authenticate() returns (id: nat)
      requires Valid()
      modifies this`pending, this`logins, this`joins
      ensures Valid() && Value() == Step(old(Value()), Event.Authenticate) && pending == Some(id)
    {
      StepKeeps(Value(), Event.Authenticate);
      id := Share(Plain);
    }

    method GetTicket(now: int) returns (r: Reached)
      requires Valid()
      modifies this`pending, this`logins, this`joins
      ensures Valid() && Value() == Step(old(Value()), Event.GetTicket(now))
      ensures match r
              case Served(ticket) => old(currentTicket) == Some(ticket) && IsFresh(ticket, now)
              case Shares(id) => pending == Some(id)
              case WaitsFor(_) => false
    {
      StepKeeps(Value(), Event.GetTicket(now));
      if currentTicket.Some? && now < currentTicket.value.expiresAt - TICKET_RENEW_MARGIN_MS {
        return Served(currentTicket.value);
      }
      var id := Share(Plain);
      r := Shares(id);
    }

    method ForceRefresh() returns (r: Reached)
      requires Valid()
      modifies this`currentTicket, this`pending, this`logins, this`joins, this`waiters
      ensures Valid() && Value() == Step(old(Value()), Event.ForceRefresh)
      ensures match r
              case Served(_) => false
              case Shares(id) => old(pending).None? && pending == Some(id) && id == |old(logins)|
              case WaitsFor(id) => old(pending) == Some(id)
    {
      StepKeeps(Value(), Event.ForceRefresh);
      if pending.Some? {
        waiters := waiters + [Waiter(pending.value, CachedTicket(Value()))];
        return WaitsFor(pending.value);
      }
      ghost var discarded := CachedTicket(Value());
      currentTicket := None;
      var id := Share(Forced(discarded, None));
      r := Shares(id);
    }

    /** The rest of `forceRefresh`, once the login it waited for has landed. */
    method ResumeForceRefresh(ghost w: nat) returns (id: nat)
      requires Valid() && Enabled(Value(), Resume(w))
      modifies this`currentTicket, this`pending, this`logins, this`joins, this`waiters
      ensures Valid() && Value() == Step(old(Value()), Resume(w)) && pending == Some(id)
    {
      StepKeeps(Value(), Resume(w));
      ghost var waiter := waiters[w];
      waiters := waiters[..w] + waiters[w + 1..];
      currentTicket := None;
      id := Share(Forced(waiter.discarded, Some(waiter.login)));
    }

    /** The rest of `login` after a reply to its request. */
    method OnReply(reply: Reply, now: int)
      requires Valid() && Enabled(Value(), Answer(reply, now))
      modifies this`currentTicket, this`logins, this`writes
      ensures Valid() && Value() == Step(old(Value()), Answer(reply, now))
    {
      StepKeeps(Value(), Answer(reply, now));
      var id := pending.value;
      var stage := Settled(Failed);
      var more: seq<Post> := [];
      match reply {
        case Granted(payload) =>
          var ticket := Cache(payload, credential.value, now);
          currentTicket := Some(ticket);
          writes := writes + [id];
          stage := Settled(Cached(ticket));
        case Refused =>
          if logins[id].stage.Renewing? {
            currentTicket := None;
            stage, more := Fresh, [WithPassword];
          }
        case Broken =>
      }
      logins := logins[id := Attempt(stage, logins[id].posts + more, logins[id].replies + [Heard(reply, now)])];
    }

    /** The `finally` of a login that has settled. */
    method OnSettled()
      requires Valid() && Enabled(Value(), Clear)
      modifies this`pending, this`logins
      ensures Valid() && Value() == Step(old(Value()), Clear)
    {
      StepKeeps(Value(), Clear);
      var id := pending.value;
      pending := None;
      var login := logins[id];
      logins := logins[id := Attempt(Finished(login.stage.outcome), login.posts + [], login.replies + [])];
    }

    method Destroy()
      requires Valid()
      modifies this`currentTicket
      ensures Valid() && Value() == Step(old(Value()), Event.Destroy)
    {
      StepKeeps(Value(), Event.Destroy);
      currentTicket := None;
    }
  }
}
