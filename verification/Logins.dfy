/**
 * What a login may make of the replies it hears: when it may fail, what it
 * may cache, and what becomes of a ticket the server has refused.
 */
module Logins {
  import opened Options
  import opened Auth

  // --- One login ---

  /** The outcome one last reply to one request leaves. */
  predicate Deserved(post: Post, heard: Heard, outcome: Outcome, user: string) {
    match heard.reply
    case Granted(p) =>
      outcome == Cached(Ticket(p.ticket, p.csrfToken, if p.username.Some? then p.username.value else user,
                               heard.at + 7200000))
    case Refused => outcome == Failed && post == WithPassword
    case Broken => outcome == Failed
  }

  /** A second request follows a ticket refused, and carries the password. */
  predicate FallsBack(l: Attempt) {
    |l.posts| == 2 ==>
      l.posts[0].WithTicket? && l.posts[1] == WithPassword && |l.replies| > 0 && l.replies[0].reply.Refused?
  }

  /** A login awaits the reply to its last request, or has the outcome that reply deserves. */
  predicate Follows(l: Attempt, credential: Option<string>) {
    match credential
    case None => l.posts == [] && l.replies == [] && OutcomeOf(l) == Some(Failed)
    case Some(user) =>
      && 1 <= |l.posts| <= 2 && FallsBack(l)
      && (if OutcomeOf(l).None? then |l.replies| == |l.posts| - 1
          else |l.replies| == |l.posts|
               && Deserved(l.posts[|l.posts| - 1], l.replies[|l.replies| - 1], OutcomeOf(l).value, user))
  }

  /** The server granted this ticket to the login. */
  predicate Got(l: Attempt, ticket: string) {
    && l.replies != [] && l.replies[|l.replies| - 1].reply.Granted?
    && l.replies[|l.replies| - 1].reply.payload.ticket == ticket
  }

  /** The server refused the ticket the login renewed with. */
  predicate WasRefused(l: Attempt) {
    l.posts != [] && l.posts[0].WithTicket? && l.replies != [] && l.replies[0].reply.Refused?
  }

  // --- All logins ---

  predicate AllFollow(s: State) {
    forall i :: 0 <= i < |s.logins| ==> Follows(s.logins[i], s.credential)
  }

  /** While the password is being tried nothing is cached; while a ticket is, nothing else is. */
  predicate PendingHolds(s: State) {
    s.pending.Some? && s.pending.value < |s.logins| && s.current.Some? ==>
      var l := s.logins[s.pending.value];
      && !l.stage.Fresh?
      && (l.stage.Renewing? ==> l.posts == [WithTicket(s.current.value.ticket)])
  }

  /** Some login from `i` up to `j` was granted the ticket. */
  predicate GotSince(s: State, i: nat, j: nat, ticket: string) {
    exists k :: i <= k < j && k < |s.logins| && Got(s.logins[k], ticket)
  }

  /** A ticket cached after a refusal was granted after it. */
  predicate CachedSince(s: State) {
    s.current.Some? ==>
      && GotSince(s, 0, |s.logins|, s.current.value.ticket)
      && forall i :: 0 <= i < |s.logins| && WasRefused(s.logins[i]) ==>
           GotSince(s, i, |s.logins|, s.current.value.ticket)
  }

  /** A ticket posted after a refusal was granted after it. */
  predicate PostedSince(s: State, j: nat)
    requires j < |s.logins|
  {
    s.logins[j].posts != [] && s.logins[j].posts[0].WithTicket? ==>
      && GotSince(s, 0, j, s.logins[j].posts[0].ticket)
      && forall i :: 0 <= i < j && WasRefused(s.logins[i]) ==> GotSince(s, i, j, s.logins[j].posts[0].ticket)
  }

  predicate Deserving(s: State) {
    && AllFollow(s) && PendingHolds(s) && CachedSince(s)
    && forall j :: 0 <= j < |s.logins| ==> PostedSince(s, j)
  }

  // --- Each step keeps it ---

  /** The first `n` logins have posted and heard the same in both. */
  predicate Alike(s: State, t: State, n: nat) {
    && n <= |s.logins| && n <= |t.logins|
    && forall i :: 0 <= i < n ==> s.logins[i].posts == t.logins[i].posts && s.logins[i].replies == t.logins[i].replies
  }

  lemma SinceAlike(s: State, t: State, n: nat, i: nat, j: nat, ticket: string)
    requires Alike(s, t, n) && j <= n && GotSince(s, i, j, ticket)
    ensures GotSince(t, i, j, ticket)
  {
    var k :| i <= k < j && k < |s.logins| && Got(s.logins[k], ticket);
    assert Got(t.logins[k], ticket);
  }

  /** A login that begins as it did, after logins that are alike. */
  lemma PostedAlike(s: State, t: State, j: nat)
    requires j < |s.logins| && j < |t.logins| && Alike(s, t, j) && PostedSince(s, j)
    requires (s.logins[j].posts == []) == (t.logins[j].posts == [])
    requires s.logins[j].posts != [] ==> s.logins[j].posts[0] == t.logins[j].posts[0]
    ensures PostedSince(t, j)
  {
    if t.logins[j].posts != [] && t.logins[j].posts[0].WithTicket? {
      var ticket := t.logins[j].posts[0].ticket;
      SinceAlike(s, t, j, 0, j, ticket);
      forall i | 0 <= i < j && WasRefused(t.logins[i])
        ensures GotSince(t, i, j, ticket)
      {
        SinceAlike(s, t, j, i, j, ticket);
      }
    }
  }

  lemma AllPostedAlike(s: State, t: State, n: nat)
    requires Alike(s, t, n) && forall j :: 0 <= j < n ==> PostedSince(s, j)
    ensures forall j :: 0 <= j < n ==> PostedSince(t, j)
  {
    forall j | 0 <= j < n
      ensures PostedSince(t, j)
    {
      PostedAlike(s, t, j);
    }
  }

  lemma CachedAlike(s: State, t: State)
    requires |s.logins| == |t.logins| && Alike(s, t, |s.logins|) && CachedSince(s)
    requires t.current.Some? ==> s.current == t.current
    ensures CachedSince(t)
  {
    if t.current.Some? {
      var n, ticket := |s.logins|, t.current.value.ticket;
      SinceAlike(s, t, n, 0, n, ticket);
      forall i | 0 <= i < n && WasRefused(t.logins[i])
        ensures GotSince(t, i, n, ticket)
      {
        SinceAlike(s, t, n, i, n, ticket);
      }
    }
  }

  /** Dropping the cached ticket, or a waiter, changes nothing else. */
  lemma DropDeserves(s: State, waiters: seq<Waiter>)
    requires Deserving(s)
    ensures Deserving(s.(current := None, waiters := waiters))
  {
    var t := s.(current := None, waiters := waiters);
    AllPostedAlike(s, t, |s.logins|);
  }

  lemma SinceLonger(s: State, i: nat, j: nat, more: nat, ticket: string)
    requires GotSince(s, i, j, ticket) && j <= more
    ensures GotSince(s, i, more, ticket)
  {
    var k :| i <= k < j && k < |s.logins| && Got(s.logins[k], ticket);
  }

  lemma StartedCached(s: State, t: State)
    requires CachedSince(s) && |t.logins| == |s.logins| + 1 && Alike(s, t, |s.logins|) && t.current == s.current
    requires t.logins[|s.logins|].replies == []
    ensures CachedSince(t)
  {
    if t.current.Some? {
      var n, ticket := |s.logins|, t.current.value.ticket;
      SinceAlike(s, t, n, 0, n, ticket);
      SinceLonger(t, 0, n, n + 1, ticket);
      forall i | 0 <= i < n + 1 && WasRefused(t.logins[i])
        ensures GotSince(t, i, n + 1, ticket)
      {
        SinceAlike(s, t, n, i, n, ticket);
        SinceLonger(t, i, n, n + 1, ticket);
      }
    }
  }

  lemma StartedPosted(s: State, t: State)
    requires CachedSince(s) && |t.logins| == |s.logins| + 1 && Alike(s, t, |s.logins|)
    requires t.logins[|s.logins|] == BeginLogin(s)
    ensures PostedSince(t, |s.logins|)
  {
    if s.current.Some? {
      var n, ticket := |s.logins|, s.current.value.ticket;
      SinceAlike(s, t, n, 0, n, ticket);
      forall i | 0 <= i < n && WasRefused(t.logins[i])
        ensures GotSince(t, i, n, ticket)
      {
        SinceAlike(s, t, n, i, n, ticket);
      }
    }
  }

  lemma JoiningDeserves(s: State, caller: Caller)
    requires Inv(s) && Deserving(s)
    ensures Deserving(Joining(s, caller))
  {
    var t := Joining(s, caller);
    if s.pending.None? {
      assert forall i :: 0 <= i < |s.logins| ==> t.logins[i] == s.logins[i];
      AllPostedAlike(s, t, |s.logins|);
      StartedCached(s, t);
      StartedPosted(s, t);
    } else {
      AllPostedAlike(s, t, |s.logins|);
      CachedAlike(s, t);
    }
  }

  lemma AnswerFollows(s: State, reply: Reply, now: int)
    requires Inv(s) && Deserving(s) && Enabled(s, Answer(reply, now))
    ensures Follows(Answered(s, s.pending.value, reply, now).logins[s.pending.value], s.credential)
  {
    assert PostsInOrder(s.logins[s.pending.value]);
  }

  lemma GrantedCached(s: State, payload: Payload, now: int)
    requires Inv(s) && Enabled(s, Answer(Granted(payload), now))
    ensures CachedSince(Answered(s, s.pending.value, Granted(payload), now))
  {
    var id := s.pending.value;
    var t := Answered(s, id, Granted(payload), now);
    assert Got(t.logins[id], payload.ticket) && |t.logins| == id + 1;
    forall i | 0 <= i < |t.logins| && WasRefused(t.logins[i])
      ensures GotSince(t, i, id + 1, payload.ticket)
    {
    }
  }

  /** A login that still waits has been granted nothing. */
  lemma WaitingGotNothing(s: State, i: nat, ticket: string)
    requires Deserving(s) && i < |s.logins| && AwaitsReply(s.logins[i])
    ensures !Got(s.logins[i], ticket)
  {
    assert Follows(s.logins[i], s.credential);
  }

  lemma SinceBefore(s: State, i: nat, id: nat, ticket: string)
    requires |s.logins| == id + 1 && GotSince(s, i, id + 1, ticket) && !Got(s.logins[id], ticket)
    ensures GotSince(s, i, id, ticket)
  {
  }

  /** A reply that cannot be read leaves the cache as it was. */
  lemma BrokenCached(s: State, now: int)
    requires Inv(s) && Deserving(s) && Enabled(s, Answer(Broken, now)) && s.current.Some?
    ensures CachedSince(Answered(s, s.pending.value, Broken, now))
  {
    var id, ticket := s.pending.value, s.current.value.ticket;
    var t := Answered(s, id, Broken, now);
    WaitingGotNothing(s, id, ticket);
    assert Alike(s, t, id);
    assert Follows(s.logins[id], s.credential);
    assert !WasRefused(t.logins[id]) && |s.logins| == id + 1 == |t.logins|;
    SinceBefore(s, 0, id, ticket);
    SinceAlike(s, t, id, 0, id, ticket);
    forall i | 0 <= i < id && WasRefused(t.logins[i])
      ensures GotSince(t, i, id + 1, ticket)
    {
      assert WasRefused(s.logins[i]);
      SinceBefore(s, i, id, ticket);
      SinceAlike(s, t, id, i, id, ticket);
      SinceLonger(t, i, id, id + 1, ticket);
    }
  }

  lemma AnswerCached(s: State, reply: Reply, now: int)
    requires Inv(s) && Deserving(s) && Enabled(s, Answer(reply, now))
    ensures CachedSince(Answered(s, s.pending.value, reply, now))
  {
    if reply.Granted? {
      GrantedCached(s, reply.payload, now);
    } else if reply.Broken? && s.current.Some? {
      BrokenCached(s, now);
    }
  }

  lemma AnswerPosted(s: State, t: State, id: nat)
    requires id < |s.logins| == |t.logins| && |s.logins| == id + 1 && Alike(s, t, id)
    requires s.logins[id].posts != [] && s.logins[id].posts <= t.logins[id].posts
    requires forall j :: 0 <= j < |s.logins| ==> PostedSince(s, j)
    ensures forall j :: 0 <= j < |t.logins| ==> PostedSince(t, j)
  {
    AllPostedAlike(s, t, id);
    PostedAlike(s, t, id);
  }

  lemma AnswerDeserves(s: State, reply: Reply, now: int)
    requires Inv(s) && Deserving(s) && Enabled(s, Answer(reply, now))
    ensures Deserving(Answered(s, s.pending.value, reply, now))
  {
    var id := s.pending.value;
    var t := Answered(s, id, reply, now);
    assert forall i :: 0 <= i < id ==> t.logins[i] == s.logins[i];
    AnswerFollows(s, reply, now);
    AnswerCached(s, reply, now);
    assert PostsInOrder(s.logins[id]) && Follows(s.logins[id], s.credential);
    AnswerPosted(s, t, id);
  }

  lemma FollowsAlike(l: Attempt, m: Attempt, credential: Option<string>)
    requires Follows(l, credential) && m.posts == l.posts && m.replies == l.replies && OutcomeOf(m) == OutcomeOf(l)
    ensures Follows(m, credential)
  {
  }

  lemma ClearFollows(s: State)
    requires Inv(s) && Deserving(s) && Enabled(s, Clear)
    ensures AllFollow(Step(s, Clear))
  {
    var t := Step(s, Clear);
    forall i | 0 <= i < |t.logins|
      ensures Follows(t.logins[i], t.credential)
    {
      FollowsAlike(s.logins[i], t.logins[i], s.credential);
    }
  }

  lemma ClearDeserves(s: State)
    requires Inv(s) && Deserving(s) && Enabled(s, Clear)
    ensures Deserving(Step(s, Clear))
  {
    var id := s.pending.value;
    var t := Step(s, Clear);
    assert forall i :: 0 <= i < |s.logins| && i != id ==> t.logins[i] == s.logins[i];
    AllPostedAlike(s, t, |s.logins|);
    CachedAlike(s, t);
    ClearFollows(s);
  }

  lemma ForceDeserves(s: State)
    requires Inv(s) && Deserving(s)
    ensures Deserving(Step(s, ForceRefresh))
  {
    if s.pending.None? {
      DropKeeps(s, s.waiters);
      DropDeserves(s, s.waiters);
      JoiningDeserves(s.(current := None), Forced(CachedTicket(s), None));
    } else {
      AllPostedAlike(s, Step(s, ForceRefresh), |s.logins|);
      CachedAlike(s, Step(s, ForceRefresh));
    }
  }

  lemma ResumeDeserves(s: State, w: nat)
    requires Inv(s) && Deserving(s) && Enabled(s, Resume(w))
    ensures Deserving(Step(s, Resume(w)))
  {
    var rest := s.waiters[..w] + s.waiters[w + 1..];
    DropKeeps(s, rest);
    DropDeserves(s, rest);
    JoiningDeserves(s.(current := None, waiters := rest), Forced(s.waiters[w].discarded, Some(s.waiters[w].login)));
  }

  lemma StepDeserves(s: State, e: Event)
    requires Inv(s) && Deserving(s) && Enabled(s, e)
    ensures Deserving(Step(s, e))
  {
    match e
    case GetTicket(now) => JoiningDeserves(s, Plain);
    case Authenticate => JoiningDeserves(s, Plain);
    case ForceRefresh => ForceDeserves(s);
    case Resume(w) => ResumeDeserves(s, w);
    case Answer(reply, now) => AnswerDeserves(s, reply, now);
    case Clear => ClearDeserves(s);
    case Destroy => DropDeserves(s, s.waiters);
  }

  lemma NextDeserves(s: State, e: Event, t: State)
    requires Inv(s) && Deserving(s) && t == if Enabled(s, e) then Step(s, e) else s
    ensures Inv(t) && Deserving(t) && t.credential == s.credential
  {
    if Enabled(s, e) {
      StepKeeps(s, e);
      StepDeserves(s, e);
    }
  }

  lemma {:induction false} RunDeserves(s: State, events: seq<Event>)
    requires Inv(s) && Deserving(s)
    ensures Inv(Run(s, events)) && Deserving(Run(s, events)) && Run(s, events).credential == s.credential
    decreases |events|
  {
    if events != [] {
      var t := if Enabled(s, events[0]) then Step(s, events[0]) else s;
      NextDeserves(s, events[0], t);
      RunDeserves(t, events[1..]);
    }
  }

  // --- What every run keeps ---

  /**
   * Whatever the interleaving, a login with a credential fails only on a
   * reply that cannot be read or on a refusal of the password, and what it
   * caches is what the server granted, for two hours.
   */
  lemma LoginsDeserve(user: string, events: seq<Event>, i: nat)
    requires i < |Run(Start(Some(user)), events).logins|
    ensures var l := Run(Start(Some(user)), events).logins[i];
            && (OutcomeOf(l) == Some(Failed) ==>
                  && |l.replies| == |l.posts| > 0
                  && var last := |l.posts| - 1;
                     l.replies[last].reply.Broken? || (l.replies[last].reply.Refused? && l.posts[last] == WithPassword))
            && (OutcomeOf(l).Some? && OutcomeOf(l).value.Cached? ==>
                  && |l.replies| == |l.posts| > 0
                  && var last := l.replies[|l.posts| - 1];
                     && last.reply.Granted?
                     && var p, got := last.reply.payload, OutcomeOf(l).value.ticket;
                        && got.ticket == p.ticket && got.csrfToken == p.csrfToken
                        && got.username == (if p.username.Some? then p.username.value else user)
                        && got.expiresAt == last.at + 7200000)
  {
    RunDeserves(Start(Some(user)), events);
  }

  lemma RefusedPosts(s: State, i: nat)
    requires Inv(s) && Deserving(s) && s.credential.Some? && i < |s.logins| && WasRefused(s.logins[i])
    ensures |s.logins[i].posts| == 2 && s.logins[i].posts[1] == WithPassword
    ensures OutcomeOf(s.logins[i]).None? ==> s.current.None?
  {
    assert Follows(s.logins[i], s.credential) && PostsInOrder(s.logins[i]);
  }

  lemma RefusedSince(s: State, i: nat, j: nat)
    requires Deserving(s) && i < j < |s.logins| && WasRefused(s.logins[i])
    requires s.logins[j].posts != [] && s.logins[j].posts[0].WithTicket?
    ensures GotSince(s, i, j, s.logins[j].posts[0].ticket)
  {
    assert PostedSince(s, j);
  }

  /**
   * Whatever the interleaving, a refused renewal goes on to post the
   * password, with nothing cached until that is answered; and a ticket cached
   * or posted after the refusal was granted after it.
   */
  lemma RefusalFallsBack(user: string, events: seq<Event>, i: nat)
    requires i < |Run(Start(Some(user)), events).logins| && WasRefused(Run(Start(Some(user)), events).logins[i])
    ensures var s := Run(Start(Some(user)), events);
            var l := s.logins[i];
            && |l.posts| == 2 && l.posts[1] == WithPassword
            && (OutcomeOf(l).None? ==> s.current.None?)
            && (s.current.Some? ==> GotSince(s, i, |s.logins|, s.current.value.ticket))
            && (forall j :: i < j < |s.logins| && s.logins[j].posts != [] && s.logins[j].posts[0].WithTicket? ==>
                  GotSince(s, i, j, s.logins[j].posts[0].ticket))
  {
    RunDeserves(Start(Some(user)), events);
    var s := Run(Start(Some(user)), events);
    RefusedPosts(s, i);
    forall j | i < j < |s.logins| && s.logins[j].posts != [] && s.logins[j].posts[0].WithTicket?
      ensures GotSince(s, i, j, s.logins[j].posts[0].ticket)
    {
      RefusedSince(s, i, j);
    }
  }

  /** A ticket still cached is what a caller renews with, when no login is in flight. */
  lemma RenewsWithCached(s: State, e: Event)
    requires Inv(s) && s.credential.Some? && s.pending.None? && s.current.Some?
    requires e.Authenticate? || (e.GetTicket? && s.current.value.expiresAt <= e.now + 900000)
    ensures var t, id := Step(s, e), |s.logins|;
            && t.pending == Some(id) && t.current == s.current && |t.logins| == id + 1
            && t.logins[id] == Attempt(Renewing, [WithTicket(s.current.value.ticket)], [])
  {
  }

  /** A forced refresh that starts a login, and `destroy`, leave nothing cached; that login posts the password. */
  lemma DiscardsCached(s: State, e: Event)
    requires Inv(s) && s.credential.Some? && Enabled(s, e) && (LogsIn(s, e) || e.Destroy?)
    ensures Step(s, e).current.None?
    ensures LogsIn(s, e) && s.pending.None? ==>
              var t, id := Step(s, e), |s.logins|;
              && t.pending == Some(id) && |t.logins| == id + 1 && t.logins[id] == Attempt(Fresh, [WithPassword], [])
  {
  }
}
