/** A session keyed by a VNC password: the cipher meets the connection. */
module Clients {
  import opened Bytes
  import Des
  import opened VncCipher
  import opened Connections
  import opened Histories
  import Sessions

  /** What a password answers to a challenge. */
  function AnswerOf(password: seq<byte>): seq<byte> -> seq<byte> {
    challenge => if |challenge| == 16 then VncEncrypt(password, challenge) else []
  }

  /** Answers are sixteen bytes, as every run of the session relies on. */
  lemma PasswordAnswersInFull(max: int, listening: bool, password: seq<byte>)
    ensures AnswersInFull(Setup(max, listening, password != [], AnswerOf(password)))
  {
  }

  /** The message sent for a challenge is one that a server with the same password takes back to that challenge. */
  lemma ChallengeAnswered(c: Conn, password: seq<byte>, challenge: seq<byte>)
    requires Inv(c) && c.attached && c.open && c.phase.Challenge? && |challenge| == 16
    requires c.setup.answer == AnswerOf(password)
    ensures var d := Act(c, ChallengeUnit(challenge)).conn;
            && d.phase.SecurityResult? && |d.sent| == |c.sent| + 1 && |d.sent[|c.sent|]| == 16
            && Des.Decrypt(VncKey(password), d.sent[|c.sent|][..8]) == challenge[..8]
            && Des.Decrypt(VncKey(password), d.sent[|c.sent|][8..]) == challenge[8..]
  {
    ChallengeRecovered(password, challenge);
  }

  method Attach(session: Sessions.VncSession, open: bool, password: seq<byte>) returns (did: Sessions.Did)
    requires session.Valid()
    modifies session
    ensures session.Valid()
    ensures did.Went? <==> !old(session.Attached())
    ensures did.Went? ==> session.State().setup.answer == AnswerOf(password) && AnswersInFull(session.State().setup)
  {
    PasswordAnswersInFull(session.max, session.listening, password);
    did := session.Attach(open, password, AnswerOf(password));
  }
}
