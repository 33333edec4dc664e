# uniqpass in Dafny

A model of the core of uniqpass, a single-page site-password generator. It derives a
per-site password from a master secret and a subject (the site name). The user's inputs
are kept consistent with the browser's persistent store and the page address through a
small reactive layer.

The model has three parts, all in `index.js`:

- **The derivation rule** (`computeUniqpass`). If either input is empty, the result is
  empty. Otherwise it is the base 64 form of SHA-256(secret + subject), secret first with
  no separator, cut to `limit` characters with `substring(0, limit || undefined)`.
  - Module `Uniqpass` holds the rule.
  - The UTF-8 encoder and the digest are host primitives. They enter as function values
    in a `Primitives` record.
  - Base 64 (section 4 of RFC 4648) is written out in module `Base64`. So the default
    limit of 44 is proved to be the length of the encoding of a 32-byte digest.
- **The reactive primitives.**
  - `variable.make` becomes the class `Variable.Cell`, and `variable.map` becomes the
    class `Variable.MappedCell`.
  - `combineLatest` becomes the class `CombineLatest.Combinator`. Its state is tied by
    its invariant to functions of the history of reports it received.
  - Listener calls are not run. Each object records them as a trace of `Delivery(listener,
    value)` entries. `Listeners.Broadcast` is the order in which `forEach` calls the
    listeners.
- **Startup and sinks** (module `Startup`). The host's key-value store and the address's
  query parameters are objects holding a `map`. The two loaders, the three sinks and the
  reset command update the controls, the store and the parameters in place.
  - `parseInt` and `String(number)` are in module `NumberText`. NaN is represented by
    `None`.

Notes on the code's behaviour:

- The derived password is the truncated base 64 text, unfiltered: every character of the
  standard alphabet and '=' can occur in it.
- A limit is any `parseInt` result, not only a non-negative integer. A negative limit is
  truthy and is clamped by `substring` to 0, so it gives an empty password.
- A mapped cell's listeners are notified twice on each `set`, and its first listener
  receives the current value twice. The reason is that the cell is subscribed to the
  cell it maps, which replays its value on subscription and notifies on its own `set`.
  The limit control is such a mapped cell.

## Model

| member | source | states |
|---|---|---|
| `Listeners.Notify` | index.js:53 | the notification loop calls exactly the calls `Broadcast` describes |
| `Listeners.BroadcastAt` | index.js:53 | notifying calls every registered listener exactly once, at its registration position, with the same value |
| `Variable.Cell.constructor` | index.js:48-50 | a new cell holds its initial value, is not listening, has no listeners and has made no calls |
| `Variable.Cell.OnChange` | index.js:51-54 | the change handler calls every listener, in order, with the value read at that moment |
| `Variable.Cell.Set` | index.js:57-60 | writes the value through, then notifies every listener with the value read back; the listeners and the attached handler are unchanged |
| `Variable.Cell.Listen` | index.js:61-68 | the new listener is appended and called at once with the current value; afterwards exactly one change handler is attached to the host, however many listeners registered |
| `Variable.Cell.HostChange` | index.js:73-77 | a host edit notifies every listener with the new value when the cell listens, and calls nobody otherwise |
| `Variable.MappedCell.constructor` | index.js:84-88 | a mapped cell keeps its base cell, getter and setter, and starts with no listeners |
| `Variable.MappedCell.OnChange` | index.js:84-88 | the mapped cell's change handler calls every listener, in order, with the base cell's value read through the getter |
| `Variable.MappedCell.Set` | index.js:84-88 | writes `setter(v)` into the base cell; every listener is called twice with `getter(setter(v))`, the value read back, not `v` |
| `Variable.MappedCell.Listen` | index.js:84-88 | the first listener is called twice with the current value (own replay, then the base cell's replay to the forwarding handler), later ones once; the base cell then has exactly one host handler |
| `Variable.MappedCell.HostChange` | index.js:84-88 | a host edit of the base field reaches every mapped listener as `getter(u)` |
| `CombineLatest.Combinator.constructor` | index.js:98-103 | a new combinator waits for every index `0..n-1`, has no slot values, no listeners and no deliveries; its invariant, kept by every method, says nothing is delivered while any source has not reported |
| `CombineLatest.Combinator.Listen` | index.js:105-117 | the listener is appended; every source is subscribed exactly once, whether this is the first listener or a later one; slots, waiting set and deliveries are untouched |
| `CombineLatest.Combinator.OnReport` | index.js:108-113 | a report fills its slot and removes its index from the waiting set; nothing is delivered while the set is non-empty; once it is empty, each listener gets one snapshot in which the reporting slot holds the new value and every other slot is unchanged; earlier deliveries stay as they were |
| `CombineLatest.Combinator.Snapshot` | index.js:112 | the delivered copy has one entry per source, each the last value that source reported |
| `CombineLatest.LastReportIffReported` | index.js:109 | a slot holds a value exactly when its source has reported at least once |
| `CombineLatest.PendingEmptyIffAllReported` | index.js:102 | the waiting set is empty exactly when every source has reported at least once |
| `CombineLatest.PendingAfterReport` | index.js:110 | a report removes exactly its own index from the waiting set, so the set only shrinks and stays empty once empty |
| `CombineLatest.SlotsAfterReport` | index.js:109 | a report overwrites its own slot and leaves every other slot unchanged |
| `Base64.Encode` | index.js:3-5 | every 3 bytes become 4 characters, so `n` bytes encode to `4 * ceil(n / 3)` characters |
| `Base64.EncodeChars` | index.js:3-5 | the encoding contains only alphabet characters and '=' |
| `Base64.EncodePadding` | index.js:3-5 | the '=' characters are exactly the last `(3 - n mod 3) mod 3` characters |
| `Base64.DigestEncodingLength` | index.js:7 | a 32-byte digest encodes to 44 characters, the last one the only '=' |
| `NumberText.ParseIntInvertsNumberToString` | index.js:136-137 | `parseInt(String(x)) == x` for every integer and for NaN |
| `NumberText.NoDigitIsNaN` | index.js:33-35 | text containing no decimal digit parses as NaN |
| `Uniqpass.Substring0` | index.js:13 | the result is a prefix of the text; an undefined end keeps all of it; an end of 0 or less gives ""; a positive end gives `min(end, length)` characters |
| `Uniqpass.ComputeUniqpass` | index.js:9-16 | an empty secret or subject gives "" whatever the limit; otherwise the result is a prefix of base64(SHA-256(secret + subject)), the whole of it for a limit of 0 or NaN, `min(limit, length)` characters for a positive limit, and "" for a negative one |
| `Uniqpass.DefaultLimitKeepsWholePassword` | index.js:7 | with a 32-byte digest, the default limit 44 cuts nothing and yields 44 characters |
| `Uniqpass.TruncationsNest` | index.js:13 | the password for a smaller positive limit is a prefix of the one for a larger limit |
| `Uniqpass.OnlyConcatenationMatters` | index.js:11 | the inputs enter only through `secret + subject`: two splits of the same text give the same password |
| `Startup.Controls.constructor` | index.js:132-146 | fresh controls over empty inputs; the limit control reads through `parseInt` and writes through `String` |
| `Startup.LoadValuesFromStorage` | index.js:20-26 | a stored secret sets the secret and checks the remember box, notifying each of their registered listeners once; without one, neither control changes; the listeners and attached handlers stay |
| `Startup.LoadValuesFromURL` | index.js:28-44 | a `limit` parameter that parses sets the limit to that number, writes its `String` form into the input and notifies each limit listener twice; one that does not parse leaves the limit unchanged; a non-empty `subject` parameter sets the subject and notifies its listeners once, and otherwise the subject is unchanged; the listeners stay |
| `Startup.RememberSecretSink` | index.js:160-166 | the store holds the secret under "secret" when remember is on, and the key is absent when it is off, even if the secret did not change |
| `Startup.PasswordSink` | index.js:168-173 | the password control shows the derived password and notifies each of its registered listeners once; the listeners stay |
| `Startup.QuerySink` | index.js:175-185 | a non-empty subject is written, an empty one leaves the old `subject` parameter; `limit` is always written as `String(limit)` |
| `Startup.QuerySinkClearingSubject` | index.js:175-185 | as the query sink, except that an empty subject removes the `subject` parameter |
| `Startup.ResetLimit` | index.js:187 | after the reset command the limit input holds "44" and the limit control reads 44; each limit listener is notified twice with 44; the listeners stay |
| `Startup.LoadFromAddress` | index.js:132-150 | a page load takes the subject from a non-empty `subject` parameter (else ""), and the limit from a `limit` parameter that parses (else the page's initial limit) |
| `Startup.RememberRoundTrip` | index.js:148-166 | after the storage sink, the next page load restores the secret and a checked box when remembering was on, and an empty secret and unchecked box when it was off, whatever was stored before |
| `Startup.QueryRoundTrip` | index.js:150-185 | with the corrected query sink, the next page load restores the subject and a numeric limit from any earlier address; a NaN limit leaves the page's initial limit |
| `Startup.StaleSubjectOnReload` | index.js:178-180 | with the sink as written, for any address holding a non-empty `subject`, any limit and any initial limit, a reload after an empty subject was emitted restores the old subject, not the empty one |

## Findings

| source | as written | input that shows it | evidently intended | confidence | as-written member | corrected member |
|---|---|---|---|---|---|---|
| index.js:178-180 | the query sink writes `subject` only when it is non-empty and never removes it | address `?subject=example.com`; the user clears the subject, so `("", 10)` is emitted; reloading restores `example.com` | an empty subject removes the `subject` parameter, so that a reload restores the cleared subject | medium, not executed | `Startup.StaleSubjectOnReload` (over `Startup.QuerySink`, for every such address) | `Startup.QuerySinkClearingSubject`, proved in `Startup.QueryRoundTrip` |

## Left out

- SHA-256 (`crypto.subtle.digest`) and the UTF-8 `TextEncoder` are function-valued parameters. The only thing assumed about the digest is that it yields 32 bytes (`Uniqpass.DigestIs32Bytes`), and only where the default limit is concerned.
- `Uniqpass.ComputeUniqpass`: the result is a value, where the source returns a promise. The race between overlapping derivations (index.js:169-172) is concurrency timing and is not modelled. Neither is `form.password.select()`.
- DOM binding is not modelled: `addEventListener` in `fromInputValue`/`fromInputChecked`, `listenable.fromButtonClick`, focus selection (index.js:152-158), the clipboard write (index.js:189), `history.replaceState` and `URL`. A `Cell` stands for a host field that stores exactly what is written. Input sanitising by the browser is not modelled.
- `Startup.LoadValuesFromURL`: the `console.warn` diagnostic for a `limit` parameter that does not parse (index.js:35) is console output and is not modelled; the limit is left unchanged, as in the code.
- `Startup.Controls.constructor`: the starting state of the inputs (empty text fields, an unchecked remember box, the limit input holding `initialLimit`) is what the HTML page provides and is taken as given. `Startup.RememberRoundTrip`'s empty secret and unchecked box after a load without a stored secret rest on it.
- Query parameters are a map. The order of entries and repeated keys of `URLSearchParams` are not modelled.
- `NumberText.ParseInt`: it reads integers exactly. JavaScript's loss of precision beyond 2^53 and the Infinity result for very long digit strings are not modelled. Neither is the exponent notation `String` uses at 1e21 and above.
- `CombineLatest.Combinator.Listen`: a cell calls the new handler synchronously while `combineLatest` subscribes to it. Here that call arrives as an `OnReport` call made after `Listen`. The resulting state is the same, because a report does not depend on which sources are already subscribed.
- `Variable.MappedCell` assumes it is the only user of its base cell, as the limit control is. A mapped cell over a cell that others also listen to is not modelled.
- Listeners are recorded, not run. So the recursion a listener would cause by synchronously setting one of its own combinator's inputs is not modelled.
- The three combinators are not wired into one object graph with the cells. Each class is modelled and proved on its own, and the sinks take the emitted tuple as parameters.
- The offline service worker (`v2/sw.js`) does cache and network I/O only. It is not part of this model.
