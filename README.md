# HTTP/3 connector: address selection and sequential fallback

This project models the connection-establishment core of the HTTP/3 client in
`src/async_impl/h3_client/connect.rs`, and proves properties of the model:

- **Construction** (`H3Connector::new`). The QUIC client is bound to `(local_ip, 0)` when a
  local address is given, and to `[::]:0` otherwise.
- **Destination normalisation** (`H3Connector::connect`). A URI without a host is refused.
  Every leading `[` and every trailing `]` is stripped from the host. The port is the URI's
  explicit port, or 443. An IP-literal host becomes the single candidate. Any other host
  goes through name parsing and the resolver, and each resolved address gets the chosen port.
- **Fallback** (`H3Connector::remote_connect`). The candidates are dialled strictly in order,
  always under the normalised host as the server name. The first successful dial is handed to
  negotiation, whose result is returned as is. Only the latest dial error is kept. An empty
  list gives the fixed error "failed to establish connection for HTTP/3 request".

The collaborators are function parameters. Nothing is assumed about what they return:

- `parseIp` stands for `IpAddr::from_str`.
- `parseName` stands for `Name::from_str`.
- `resolve` stands for the DNS resolver.
- `dial` stands for `QuicClient::connect` on the client bound at construction.
- `negotiate` stands for `QuicConnection::new` followed by `h3::client::new`.

`RemoteConnect` is a method with the source's loop and its `err` accumulator. It returns a
ghost trace of the dialer calls it made. It is proved equal to `Outcome`, a specification
stated by the index of the first candidate that dials (`FirstDialable`). The fallback
properties are lemmas about `Outcome`.

Files: `wrappers.dfy` (Option, Result), `net.dfy` (addresses, ports, URI),
`connect.dfy` (the connector).

Modelling choices:

- `New` returns a `Result` but never fails, because connect.rs:43 always returns `Ok`.
- Errors are untyped boxed values in the code. The model tags each one with the stage that
  produced it (`Error`). The two fixed texts are noted beside their constructors.

`Outcome` (connect.dfy) is the specification of the fallback result. It has no contract of
its own: `RemoteConnect` is proved equal to it, and the fallback lemmas below are about it.

## Model

| member | source | states |
|---|---|---|
| H3Connect.New | src/async_impl/h3_client/connect.rs:27-44 | construction always succeeds; bind port is 0; bind IP is the given local IP, or the IPv6 unspecified address `::` when none is given |
| H3Connect.TrimStartMatches | src/async_impl/h3_client/connect.rs:50 | result is a suffix of the input; every removed character is the trimmed one; the result does not start with it (repeats are all removed) |
| H3Connect.TrimEndMatches | src/async_impl/h3_client/connect.rs:51 | result is a prefix of the input; every removed character is the trimmed one; the result does not end with it |
| H3Connect.NormaliseHost | src/async_impl/h3_client/connect.rs:47-51 | server name is a contiguous slice `host[i..j]` with only `[` before it and only `]` after it; it neither starts with `[` nor ends with `]` |
| H3Connect.ChosenPort | src/async_impl/h3_client/connect.rs:52 | the URI's explicit port when present, 443 otherwise |
| H3Connect.WithPorts | src/async_impl/h3_client/connect.rs:59-63 | same length and order as the resolver output; each element keeps its IP and carries the chosen port |
| H3Connect.Candidates | src/async_impl/h3_client/connect.rs:46-64 | missing host iff "destination must have a host"; server name is the normalised host; every candidate has the chosen port; IP literal gives exactly `[(ip, port)]`, whatever the resolver would say; otherwise name-parse and resolve errors are propagated and a lookup keeps length, order and IPs |
| H3Connect.FirstDialable | src/async_impl/h3_client/connect.rs:75-82 | the least index whose dial succeeds (all earlier ones fail), or the list length when none does |
| H3Connect.DialCount | src/async_impl/h3_client/connect.rs:75-80 | number of dials: every dial before the last one fails; the last one succeeds unless the whole list was dialled; when it is the whole list and the last dial fails, every dial failed; positive for a non-empty list |
| H3Connect.RemoteConnect | src/async_impl/h3_client/connect.rs:69-88 | result equals `Outcome`; the dialer calls are exactly the candidates up to and including the first success, in list order, all under the same server name |
| H3Connect.Connect | src/async_impl/h3_client/connect.rs:46-67 | no host: fails with MissingHost and dials nothing; a failure building the candidates is returned and nothing is dialled; otherwise result and dials are those of the fallback over the candidates under the normalised host |
| H3Connect.FirstDialableAfterFailures | src/async_impl/h3_client/connect.rs:75-82 | candidates placed in front that all fail to dial shift the first successful index by exactly their number |
| H3Connect.FailedPrefixDiscarded | src/async_impl/h3_client/connect.rs:74-83 | candidates that fail before a non-empty remainder leave the outcome unchanged (their errors are discarded) and add one dial each |
| H3Connect.LaterCandidatesIgnored | src/async_impl/h3_client/connect.rs:76-80 | after the first successful dial no later candidate matters: appending candidates changes neither the outcome nor the dials |
| H3Connect.AllFailedReportsLast | src/async_impl/h3_client/connect.rs:81-87 | when every dial fails, all candidates are dialled and the error is the last candidate's; an empty list gives the fixed "no connection" error |
| H3Connect.NoConnectionIffEmpty | src/async_impl/h3_client/connect.rs:74-87 | the fixed "no connection" error occurs iff the list is empty, and no dial happens iff the list is empty |
| H3Connect.SuccessIffFirstDialNegotiates | src/async_impl/h3_client/connect.rs:75-80 | a session is returned iff some candidate dials and negotiation on the first such candidate succeeds |
| H3Connect.ThirdOfThreeWins | src/async_impl/h3_client/connect.rs:75-81 | with `[A, B, C]` where only C dials: A, B, C are dialled in that order under one server name, and the result is C's negotiation |

## Left out

- QUIC client building (`QuicClient::bind`, `with_tls_config`, `with_parameters`, `build`): these are library builders. Only the chosen bind address is modelled. The TLS configuration and transport parameters are passed through untouched, so they are not represented.
- The QUIC wrapping and HTTP/3 handshake are one opaque `negotiate` function. The connection and session types are type parameters.
- The resolver, IP-literal parsing and name parsing are opaque function parameters. Parsing inside `http::Uri` is not modelled: the URI is a record with an optional host and an optional 16-bit port.
- Asynchronous suspension, cancellation, `Arc` sharing and concurrent use of the connector are not modelled. The connector is an immutable value, so repeated calls cannot change it.
- `dial` and `negotiate` depend only on their arguments. A candidate listed twice gets the same dial result both times, and a dial cannot depend on earlier dials. The real client is shared, and its state can change between dials (local resources running out, for example).
- Errors are carried as text plus a stage tag. Their concrete Rust types are not modelled.
- H3Connect.Candidates: does not record whether the resolver was called. That it is not consulted for an IP literal is stated by the result not depending on `resolve`.
