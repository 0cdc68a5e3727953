# swift-informant: the `Informant` middleware, modelled in Dafny

swift-informant is a WSGI middleware for OpenStack Swift. For each finished
request it decides whether to report the request to statsd, using an
adaptive "catch-up" sampler. When it reports, it derives three statsd lines
from the request:

- a counter, `<type>.<METHOD>.<status>:1|c|@<rate>`;
- a timer in milliseconds;
- a bytes-transferred counter behind a `tfer.` prefix.

It sends the three lines over UDP, one datagram each or joined by `#` into
a single datagram.

This project models the `Informant` class of `informant/middleware.py`:

- **Sampler** (`sampler.dfy`): the sampler's state machine over `counter`,
  `monitored` and `actual_rate`, as a function `Step` on values. Its lemmas
  cover the state invariant, the reset at `maxint`, the catch-up bound
  `|monitored - rate*n| <= 1`, and the rate-1.0 quirk: the second call is
  never sampled.
- **Metric derivation** (`metrics.dfy`): pure functions for each step of
  `statsd_event`:
  - parsing the valid-methods setting;
  - method normalisation to `BAD_METHOD`;
  - the resource type, read off the raw count of `/`;
  - the client-disconnect override to 499;
  - the bytes-transferred fallback;
  - `%d` truncation of the timer;
  - the three line-protocol strings.

  It also models the status-line parse of the `start_response` wrapper.
- **Payload encoding** (`packets.dfy`): one payload per line, or their
  `#`-join.
- **The object** (`middleware.dfy`): `class Informant` has the
  configuration as constants and the three sampler fields as mutable
  state.
  - `SendSampledEvent` updates the fields step by step and is proved
    against `Sampler.Step`.
  - `SendEvents` loops over the payloads.
  - `StatsdEvent` consults the sampler and sends the derived lines.
- **Text helpers** (`text.dfy`): the byte-string operations the source
  uses, for ASCII:
  - `upper` and `strip`;
  - `split`, `join` and a first-separator cut;
  - `count`;
  - decimal `%s`/`%d` rendering and `int()` parsing.
- **Test scenarios** (`scenarios.dfy`): the expected outputs of the unit
  tests in `test/test_informant.py`, stated as lemmas over the model.

Modelling choices:

- `sys.maxint` is `MaxInt = 2^63 - 1`, the value on a 64-bit CPython 2.
- The rate and the ratio are exact `real`s.
- The clock reading `time()` is a parameter `now`, and the duration
  `(now - start) * 1000` is computed exactly and truncated toward zero, as
  `%d` does.
- The `%s` rendering of the float sample rate is the opaque setting
  `sampleRateText`.
- The `is '-'` and `is 0` comparisons of lines 92 and 94 are equality.

When `informant.status` or `informant.start_time` is missing from the
environment, `status_int` is never bound. The format at line 101 then
raises a NameError, which the handler at lines 109-113 swallows. The model
therefore sends nothing: `EventMetrics` is `None`. No sentinel status is
produced, and the resource type is still computed first, which cannot fail.

## Model

| member | source | states |
|---|---|---|
| Sampler.Step | informant/middleware.py:66-75 | One sampler call keeps the state invariant. It samples iff the observed rate before the call is below the target. It adds 1 to `counter`, and 1 to `monitored` exactly when it samples. It resets both counters to 0 when `counter` reaches `maxint`. It leaves `actual_rate` at its pre-reset ratio. |
| Sampler.Run | informant/middleware.py:59-75 | Any number of consecutive calls keeps the state invariant: `0 <= monitored <= counter < maxint`, and `actual_rate == monitored/counter` once `counter > 0`. |
| Sampler.StepKeepsBalance | informant/middleware.py:67-74 | For a rate in (0,1], one call (including a reset) preserves the catch-up balance `-rate <= monitored - rate*counter < 1`. |
| Sampler.RunKeepsBalance | informant/middleware.py:59-75 | The catch-up balance holds after any number of calls. |
| Sampler.CatchUp | informant/middleware.py:59-71 | From a fresh sampler (lines 41-43), with no reset in between (n < maxint), after n calls `counter == n`, `monitored` equals the number sampled, and that number is within 1 of `rate*n`. |
| Sampler.CountsWithoutReset | informant/middleware.py:67-69 | Before a reset, `counter` counts the calls and `monitored` counts the sampled calls. |
| Sampler.RatioWithin | informant/middleware.py:71 | In a balanced state, the observed rate lies within `1/counter` of the target. |
| Sampler.FirstCallSamples | informant/middleware.py:41-43 | The first call on a fresh sampler samples, for every positive rate. |
| Sampler.RateOneSkipsSecondCall | informant/middleware.py:68-71 | At rate 1.0 the first call samples and the second does not, because the ratio 1/1 is not below 1.0. |
| Sampler.RateOneSamplesAllButOne | informant/middleware.py:66-71 | At rate 1.0, n ≥ 2 calls sample exactly n - 1 events, and the state is `(n, n-1, (n-1)/n)`. |
| Middleware.Informant.constructor | informant/middleware.py:34-43 | A new object has a fresh sampler (`0, 0, 0.0`), the parsed valid methods and the given settings. |
| Middleware.Informant.SendSampledEvent | informant/middleware.py:59-75 | The in-place update of the three fields is exactly `Sampler.Step`. It keeps the invariant and returns true iff the old observed rate is below the target. |
| Middleware.Informant.SendEvents | informant/middleware.py:49-55 | The payloads sent are the lines in order, one each, or their single `#`-join. |
| Middleware.Informant.StatsdEvent | informant/middleware.py:77-113 | The sampler advances by one step. When the event is sampled and both environment entries are present, the sent payloads are those of the three derived lines. Otherwise nothing is sent. |
| Middleware.RateOneClient | informant/middleware.py:59-75 | On an object built with rate 1.0, the first event is sampled and the second is not. |
| Metrics.Entry | informant/middleware.py:36-37 | A piece of the setting yields an entry iff it is not blank after stripping. The entry is a method name: non-empty, no comma, no lower case, no whitespace at either end. |
| Metrics.MethodEntries | informant/middleware.py:36-37 | The entries kept are method names, and there are no more of them than pieces. |
| Metrics.MethodEntriesMembers | informant/middleware.py:36-37 | A name is kept iff some piece yields it. |
| Metrics.EntryHasPiece | informant/middleware.py:36-37 | Every kept name comes from some piece. |
| Metrics.PieceHasEntry | informant/middleware.py:36-37 | Every name a piece yields is kept. |
| Metrics.UpperKeepsName | informant/middleware.py:36 | A stripped, upper-cased, non-blank piece is a method name. |
| Metrics.CleanEntriesKept | informant/middleware.py:36-37 | Pieces that are already method names are kept unchanged, in order. |
| Metrics.CleanEntryKept | informant/middleware.py:36 | A piece that is already a method name yields itself. |
| Metrics.ParseValidMethods | informant/middleware.py:36-37 | `valid_methods` holds only method names. |
| Metrics.ParseValidMethodsMembers | informant/middleware.py:36-37 | `valid_methods` holds exactly the stripped, upper-cased, non-blank comma-separated pieces of the setting. |
| Metrics.NormalizeMethod | informant/middleware.py:81-83 | The method is the upper-cased request method when that is valid, and `BAD_METHOD` otherwise. |
| Metrics.StatType | informant/middleware.py:96-100 | The type is `invalid` for 0 or 1 '/', `acct` for 2, `cont` for 3, and `obj` for 4 or more (the IndexError case). |
| Metrics.TrailingSlashCounts | informant/middleware.py:97-98 | A trailing slash counts: an account path with a trailing '/' is a container, and a container path with one is an object. |
| Metrics.PathSlashes | informant/middleware.py:97-98 | A path of n slash-free segments, each behind a '/', has n slashes. |
| Metrics.PathSegmentsType | informant/middleware.py:96-100 | The type of a path of n segments: `invalid` up to 1, `acct` at 2, `cont` at 3, `obj` from 4 on. |
| Metrics.ResolveStatus | informant/middleware.py:85-89 | The status is 499 when the request reports a client disconnect, and also when its response does. Otherwise it is the recorded status. |
| Metrics.ParseStatusLine | informant/middleware.py:119 | The code is `int()` of the text before the first space, or of the whole line when it has no space. `None` stands for the ValueError. |
| Metrics.StatusLineRoundTrip | informant/middleware.py:119 | `"<code> <reason>"` parses back to the code, for any integer code and any reason text. |
| Metrics.StatusLineCode | informant/middleware.py:119 | Whatever follows the first space is ignored: a line `<code> <reason>` records `int()` of `<code>`. |
| Metrics.PaddedStatusLine | informant/middleware.py:119 | A code written with a leading zero, as in `0200 OK`, records the code. |
| Metrics.SignedStatusLine | informant/middleware.py:119 | A code written with a plus sign, as in `+200 OK`, records the code. |
| Metrics.LeadingSpaceStatusLine | informant/middleware.py:119 | A line that starts with a space has an empty code, so `int()` raises a ValueError and nothing is recorded. |
| Metrics.ResolveTransferred | informant/middleware.py:91-95 | The request's byte count is used unless it is "-" or 0. In that case the response's count is used, or 0 when there is no response. A remaining "-" becomes 0, so the result is never "-". |
| Metrics.RenderBytes | informant/middleware.py:106 | `%s` of a numeric byte count reads back through `int()` as that count. A textual count is rendered as it is. |
| Metrics.TruncMs | informant/middleware.py:104 | `%d` truncates toward zero: the result is within 1 of the duration, on the side of 0. |
| Metrics.MetricName | informant/middleware.py:101 | When neither the type nor the method holds a '.', the name `<type>.<method>.<status>` splits on '.' into exactly those three fields. The status field is `IntToString(status)`, which reads back by `Text.IntToStringRoundTrip`. |
| Metrics.ParseFormat | informant/middleware.py:102-107 | `FormatMetric` renders a line `name:value\|kind\|@rate`. It reads back as the metric it was built from when the name has no ':' and the value and kind have no '\|'. |
| Metrics.EventMetrics | informant/middleware.py:84-108 | An event is produced iff status and start time are both recorded (otherwise the NameError is swallowed and nothing is sent). It consists of the counter, the timer and the `tfer.` line, in that order, all with the prefix and rate. |
| Metrics.EventLines | informant/middleware.py:101-108 | A produced event has exactly three lines. |
| Metrics.EventLinesReadBack | informant/middleware.py:101-107 | Each of the three lines reads back as its metric. The counter and the timer share one name, and the transfer line carries it behind `tfer.`. |
| Packets.Payloads | informant/middleware.py:49-55 | Without combining, the payloads are the lines. With combining, they are a single payload. |
| Packets.CombinedRoundTrip | informant/middleware.py:54 | Splitting the combined payload on '#' gives back the lines, in order, when no line holds '#'. |
| Text.Upper | informant/middleware.py:36 | ASCII `upper` keeps the length and maps each byte on its own. |
| Text.UpperUnchanged | informant/middleware.py:81 | `upper` leaves text without lower-case letters unchanged. |
| Text.Strip | informant/middleware.py:36 | `strip` removes only whitespace, from both ends, and leaves neither end on whitespace. |
| Text.StripUnchanged | informant/middleware.py:36 | `strip` leaves text without whitespace at its ends unchanged. |
| Text.Split | informant/middleware.py:37 | `split` gives at least one piece, and no piece holds the separator. |
| Text.JoinSplit | informant/middleware.py:37 | Joining the pieces of a split gives back the text. |
| Text.SplitJoin | informant/middleware.py:54 | Splitting a join of separator-free pieces gives back the pieces. |
| Text.JoinSeparators | informant/middleware.py:54 | `Join` puts exactly one separator between neighbouring parts: a join of n separator-free parts holds n - 1 separators. |
| Text.Cut | informant/middleware.py:119 | `split(' ', 1)` finds the first separator: the text is `head + sep + tail` with no separator in `head`, or there is no separator at all. |
| Text.CountChar | informant/middleware.py:97-98 | `count` is at most the length, and 0 iff the character is absent. |
| Text.NatToString | informant/middleware.py:101 | `%s` of a natural number is a non-empty run of digits without a leading zero. |
| Text.IntToString | informant/middleware.py:101 | `%s` of an integer is non-empty and made only of digits and '-'. |
| Text.ParseInt | informant/middleware.py:119 | `int()` of stripped text accepts only an optional sign followed by digits. A negative result needs a '-' sign, and every non-empty digit string is accepted as a non-negative value. |
| Text.LeadingZeroValue | informant/middleware.py:119 | A leading zero does not change the value `int()` reads. |
| Text.IntToStringRoundTrip | informant/middleware.py:101 | `int()` of the decimal rendering of any integer gives it back. |
| Scenarios.DefaultSettingParsed | informant/middleware.py:34-37 | The default setting parses to GET, HEAD, POST, PUT, DELETE, COPY. |
| Scenarios.UnknownMethodIsBad | test/test_informant.py:72-86 | `WTFMONKEYS` becomes `BAD_METHOD`. |
| Scenarios.JunkMethodIsBad | test/test_informant.py:182-202 | `-JUNK` becomes `BAD_METHOD`. |
| Scenarios.DefaultMethodsKept | test/test_informant.py:182-198 | Each default method (GET, HEAD, POST, PUT, DELETE, COPY, so every valid method the test loop sends) is kept unchanged. |
| Scenarios.LowerCaseMethodIsValid | informant/middleware.py:81-83 | `get` is upper-cased to `GET`. |
| Scenarios.ObjectRequestLines | test/test_informant.py:150-180 | A GET on any object path, that is any path with four or more '/', gives `obj.GET.200:1`, `obj.GET.200:500000` (ms) and `tfer.obj.GET.200:500`. |
| Scenarios.PseudoDirRequestLines | test/test_informant.py:166-180 | A path of four or more slash-free segments gives the same three `obj.GET.200` lines. This includes an object name that spans several segments, such as `theobj/with/extras`, whose '/' count is past the end of the type table. |
| Scenarios.DisconnectLines | test/test_informant.py:88-102 | A disconnected request gives three `invalid.GET.499` lines. |
| Scenarios.DashTransferLine | test/test_informant.py:104-116 | A byte count of "-" without a response gives `tfer.invalid.GET.200:0`. |
| Scenarios.MissingStatusSendsNothing | informant/middleware.py:84-113 | Without a recorded status, no lines are produced. |

## Left out

- The UDP socket, `sendto` and the logging of send failures (lines 47-48, 51, 55-57) are network I/O. `SendEvents` returns the payloads it would send. A send that fails part-way through the per-line loop is not modelled.
- The logging in the exception handler of `statsd_event` (lines 109-113) is left out. Only its effect, that nothing is sent, is kept.
- The WSGI and eventlet plumbing is foreign framework glue and is left out:
  - the `__call__` wrapper;
  - posthook registration;
  - `Request(env)`;
  - the 500 fallback response;
  - `filter_factory` (lines 115-142, apart from the status parse at line 119).
- `time()` is a parameter. The float arithmetic of the duration is exact real arithmetic, so float rounding of the timer is not modelled.
- The float `%s` rendering of the sample rate is an opaque string setting, `sampleRateText`.
- `actual_rate` is an exact `real`, so float rounding of the ratio is not modelled.
- Configuration loading is an external collaborator:
  - reading of host, port and rate with their defaults;
  - the `combined_events` parsing with Swift's `TRUE_VALUES`;
  - the logger.

  The constructor takes the settings as values.
- Concurrency between green threads that share the counters is not modelled. The model is one sequential sampler.
- Text handling is ASCII only. This is exact for Python 2 byte strings. Unicode case mapping and whitespace are not modelled.
- Metrics.ParseStatusLine: `int()` is modelled as stripping whitespace and then reading an optional sign followed by decimal digits. Python 2 also accepts whitespace between the sign and the digits; that form is not modelled and is read as an error.
- Sampler.CatchUp: the bound is proved for exact reals. The program compares float values: the target rate is the nearest float to the setting (0.1 is not exactly 1/10), and `monitored/counter` is rounded. So a decision where the ratio equals or nearly equals the target can differ from the model; past 2^53 the rounding of the ratio no longer distinguishes neighbouring counts.
- Sampler.RateOneSamplesAllButOne: the exact ratio `(n-1)/n` stays below 1.0 for every n. As a float it rounds to 1.0 once n passes 2^53, so the running program at rate 1.0 samples fewer events from there on.
- `extra/test-server.py` (a UDP listener) and `setup.py` (packaging) are outside the middleware.
