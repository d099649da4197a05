/**
 * The webhook verification handshake of the relay's GET /webhook endpoint. The
 * messaging platform proves it knows the shared secret by sending
 * `hub.mode=subscribe`, `hub.verify_token=<secret>` and a `hub.challenge`; the
 * endpoint echoes the challenge back when both match and answers 403 otherwise.
 * The secret is the `verify_token` given on the command line at startup and is
 * never changed afterwards, so it is an ordinary parameter here.
 */
module Webhook {
  import opened Wrappers
  import Query

  /** Query-parameter names the platform uses. */
  const ModeKey: string := "hub.mode"
  const TokenKey: string := "hub.verify_token"
  const ChallengeKey: string := "hub.challenge"

  /** The only mode that is accepted. */
  const SubscribeMode: string := "subscribe"

  /** What the view answers: `abort(403)`, or a response carrying the challenge as
      it was received (`None` when the request had no `hub.challenge`). */
  datatype Outcome = Forbidden | Echo(challenge: Option<string>)

  /**
   * The two checks of the handler on the already looked-up parameters. Python's
   * `x != 'subscribe'` is true for `x = None`, so a missing parameter fails a
   * check exactly as a wrong one does.
   */
  function Verify(mode: Option<string>, token: Option<string>, challenge: Option<string>,
                  configured: string): (r: Outcome)
    ensures r.Echo? <==> mode == Some(SubscribeMode) && token == Some(configured)
    ensures r.Echo? ==> r.challenge == challenge
  {
    if mode != Some(SubscribeMode) then Forbidden
    else if token != Some(configured) then Forbidden
    else Echo(challenge)
  }

  /**
   * The whole GET handler on the request's query string: each parameter is the
   * first value given for its name. The request is accepted exactly when the first
   * `hub.mode` is "subscribe" and the first `hub.verify_token` is the configured
   * secret, and what comes back is the first `hub.challenge`, or nothing.
   */
  function HandleVerify(args: seq<Query.Param>, configured: string): (r: Outcome)
    ensures r.Echo? <==>
      && (exists i :: Query.IsFirst(args, ModeKey, i) && args[i].value == SubscribeMode)
      && (exists j :: Query.IsFirst(args, TokenKey, j) && args[j].value == configured)
    ensures r.Echo? ==> (r.challenge.None? <==> !Query.Has(args, ChallengeKey))
    ensures r.Echo? ==>
      forall k :: Query.IsFirst(args, ChallengeKey, k) ==> r.challenge == Some(args[k].value)
  {
    Verify(Query.Get(args, ModeKey), Query.Get(args, TokenKey), Query.Get(args, ChallengeKey),
           configured)
  }

  /** Any mode other than exactly "subscribe", a missing one included, is refused,
      whatever the token and the challenge. */
  lemma WrongModeForbidden(mode: Option<string>, token: Option<string>,
                           challenge: Option<string>, configured: string)
    requires mode != Some(SubscribeMode)
    ensures Verify(mode, token, challenge, configured) == Forbidden
  {
  }

  /** Any token other than exactly the configured one, a missing one included, is
      refused, whatever the mode and the challenge. */
  lemma WrongTokenForbidden(mode: Option<string>, token: Option<string>,
                            challenge: Option<string>, configured: string)
    requires token != Some(configured)
    ensures Verify(mode, token, challenge, configured) == Forbidden
  {
  }

  /** When both checks pass the challenge comes back unchanged; in particular a
      missing challenge (`challenge == None`) comes back missing rather than turning
      into a refusal. */
  lemma AcceptedEchoesChallenge(challenge: Option<string>, configured: string)
    ensures Verify(Some(SubscribeMode), Some(configured), challenge, configured) == Echo(challenge)
  {
  }

  /** The decision never looks at the challenge: changing only the challenge never
      turns an acceptance into a refusal or back. */
  lemma DecisionIgnoresChallenge(mode: Option<string>, token: Option<string>,
                                 c1: Option<string>, c2: Option<string>, configured: string)
    ensures Verify(mode, token, c1, configured).Forbidden?
        <==> Verify(mode, token, c2, configured).Forbidden?
  {
  }

  /** Instances of the exact-equality characterisation of `Verify`: a mode or a token
      differing only in letter case is refused. */
  lemma CaseSensitive(challenge: Option<string>)
    ensures Verify(Some("Subscribe"), Some("abc"), challenge, "abc") == Forbidden
    ensures Verify(Some("SUBSCRIBE"), Some("abc"), challenge, "abc") == Forbidden
    ensures Verify(Some("subscribe"), Some("ABC"), challenge, "abc") == Forbidden
    ensures Verify(Some("subscribe"), Some("Abc"), challenge, "abc") == Forbidden
  {
  }

  /** With the secret "abc", `?hub.mode=subscribe&hub.verify_token=abc&hub.challenge=123`
      is answered with "123"; the same request with the token missing is refused. */
  lemma HandshakeExample()
    ensures HandleVerify([Query.Param(ModeKey, "subscribe"), Query.Param(TokenKey, "abc"),
                          Query.Param(ChallengeKey, "123")], "abc") == Echo(Some("123"))
    ensures HandleVerify([Query.Param(ModeKey, "subscribe"),
                          Query.Param(ChallengeKey, "123")], "abc") == Forbidden
  {
    var full := [Query.Param(ModeKey, "subscribe"), Query.Param(TokenKey, "abc"),
                 Query.Param(ChallengeKey, "123")];
    assert Query.IsFirst(full, ModeKey, 0);
    assert Query.IsFirst(full, TokenKey, 1);
    assert Query.IsFirst(full, ChallengeKey, 2);
  }

  /** Query parameters under names the handler does not read, inserted anywhere
      among the others (before, between or after them), never change the answer. */
  lemma {:induction false} OtherParamsIgnored(a: seq<Query.Param>, other: seq<Query.Param>,
                                              b: seq<Query.Param>, configured: string)
    requires !Query.Has(other, ModeKey) && !Query.Has(other, TokenKey)
    requires !Query.Has(other, ChallengeKey)
    ensures HandleVerify(a + other + b, configured) == HandleVerify(a + b, configured)
  {
    assert a + other + b == a + (other + b);
    Query.GetAppend(a, other + b, ModeKey);
    Query.GetAppend(a, b, ModeKey);
    Query.GetIgnoresOtherKeys(b, other, ModeKey);
    Query.GetAppend(a, other + b, TokenKey);
    Query.GetAppend(a, b, TokenKey);
    Query.GetIgnoresOtherKeys(b, other, TokenKey);
    Query.GetAppend(a, other + b, ChallengeKey);
    Query.GetAppend(a, b, ChallengeKey);
    Query.GetIgnoresOtherKeys(b, other, ChallengeKey);
  }

  /** A repeated parameter cannot override an earlier one: once the request names
      all three parameters, anything appended to it leaves the answer unchanged. */
  lemma {:induction false} RepeatedParamsIgnored(args: seq<Query.Param>, more: seq<Query.Param>,
                                                 configured: string)
    requires Query.Has(args, ModeKey) && Query.Has(args, TokenKey)
    requires Query.Has(args, ChallengeKey)
    ensures HandleVerify(args + more, configured) == HandleVerify(args, configured)
  {
    Query.GetFirstWins(args, more, ModeKey);
    Query.GetFirstWins(args, more, TokenKey);
    Query.GetFirstWins(args, more, ChallengeKey);
  }
}
