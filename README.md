# Webhook verification handshake of raspbot-py

This project models, in Dafny, the part of the raspbot-py messenger bot that decides
whether an incoming webhook verification request is genuine: the Flask view `verify()`
behind `GET /webhook`. The messaging platform sends three query parameters,
`hub.mode`, `hub.verify_token` and `hub.challenge`. The view refuses the request with
HTTP 403 unless the mode is exactly `subscribe` and the token is exactly the secret
given as the `verify_token` command-line argument at startup. When both checks pass it
answers with the challenge exactly as received.

Files:

- `query.dfy`: module `Wrappers` (the `Option` type that stands for Python's `None`) and
  module `Query`, the view's `request.args`. This is an ordered list of decoded
  `key=value` pairs. `Query.Get` looks a key up as `request.args.get` does: it returns
  the first value given for the key, or `None` when the key is missing.
- `webhook.dfy`: module `Webhook`. `Verify` holds the two checks on the looked-up
  parameters. `HandleVerify` is the whole view on a query string. The lemmas state
  what the handshake guarantees.

`abort(403)` is the outcome `Forbidden`. Returning the challenge is the outcome
`Echo(challenge)`, where `challenge` is `None` when the request had no `hub.challenge`.
The configured secret is read-only and is passed to every operation as a plain `string`.
It may be any string, the empty one included, because the command line accepts any.
Everything here is a pure function. So the answer depends only on the request and the
secret, and nothing is changed.

## Model

| member | source | states |
|---|---|---|
| `Query.Get` | bot.py:22-28 | `request.args.get(key)` is `None` exactly when no parameter has that name; otherwise it is the value of the first parameter with that name |
| `Query.GetAppend` | bot.py:22-28 | looking a name up in two joined query strings gives the first string's value when it has the name, and the second string's otherwise |
| `Query.GetIgnoresOtherKeys` | bot.py:22-28 | parameters under other names, placed before or after, never change a lookup |
| `Query.GetFirstWins` | bot.py:22-28 | once a name occurs, later occurrences of it never change its lookup |
| `Webhook.Verify` | bot.py:21-28 | the answer is an echo exactly when the mode is present and equals "subscribe" and the token is present and equals the configured secret; otherwise it is 403; an echo carries the challenge parameter unchanged |
| `Webhook.HandleVerify` | bot.py:21-28 | on a whole query string: accepted exactly when the first `hub.mode` is "subscribe" and the first `hub.verify_token` is the secret; an accepted answer carries no challenge (`Echo(None)`) exactly when there is no `hub.challenge`, and otherwise carries the first `hub.challenge` value |
| `Webhook.WrongModeForbidden` | bot.py:22-23 | any mode other than exactly "subscribe", a missing one included, gives 403 whatever the token and challenge |
| `Webhook.WrongTokenForbidden` | bot.py:25-26 | any token other than exactly the configured secret, a missing one included, gives 403 whatever the mode and challenge |
| `Webhook.AcceptedEchoesChallenge` | bot.py:28 | with both checks passed the challenge comes back unchanged, for every challenge including a missing one, which comes back missing instead of causing a refusal |
| `Webhook.DecisionIgnoresChallenge` | bot.py:22-26 | changing only the challenge never flips acceptance |
| `Webhook.CaseSensitive` | bot.py:22-26 | instances of `Verify`'s exact-equality characterisation: "Subscribe", "SUBSCRIBE", or a token that differs from the secret only in letter case, give 403 |
| `Webhook.HandshakeExample` | bot.py:21-28 | with secret "abc", `hub.mode=subscribe&hub.verify_token=abc&hub.challenge=123` is answered with "123", and the same request without the token gives 403 |
| `Webhook.OtherParamsIgnored` | bot.py:22-28 | query parameters the view does not read, inserted anywhere among the others (before, between or after them), never change the answer |
| `Webhook.RepeatedParamsIgnored` | bot.py:22-28 | when a request already names all three parameters, repeated copies appended after them cannot override the first ones |

## Left out

- Flask application setup, route registration and `app.run` (bot.py:5-10, 20, 30-31). These are framework plumbing. The route's only logic is the view, which is modelled.
- Command-line parsing (bot.py:3, 13-17). This is I/O at startup. Its result enters only as the read-only `configured` string.
- Decoding the raw query string (percent-decoding, `+` as space, splitting on `&` and `=`). This is the framework's work. The model starts from the decoded list of pairs.
- HTTP response mechanics beyond the 403/echo distinction: status lines, headers and the error page body. The framework's handling of a view that returns `None` is also left out. That is what the view returns when `hub.challenge` is missing. The model records such a reply only as `Echo(None)`.
- The order of the two checks, mode first and then token, is not observable. Both failures give the same 403, so the model states only which inputs are refused.
- Event parsing, reply resolution, sensor readings and message sending are not part of the source file modelled here (bot.py holds only the verification endpoint), so they are not modelled.
