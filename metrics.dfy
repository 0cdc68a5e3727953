/** The metric derivation of `Informant.statsd_event`, the parsing of the
    `valid_http_methods` setting done by `Informant.__init__`, and the
    status-line parsing of the `start_response` wrapper: pure functions
    over the request, the two WSGI environment entries the middleware
    records, and the configuration. */
module Metrics {

  import opened Wrappers
  import opened Text

  /** A `bytes_transferred` attribute: an integer, or a string such as
      "500" or the "-" placeholder the proxy leaves when nothing was counted. */
  datatype Bytes = Num(n: int) | Str(s: string)

  const Dash: Bytes := Str("-")

  /** The response attached to a request: its disconnect flag and byte
      count, absent attributes given by their `getattr` defaults (false, 0). */
  datatype Response = Response(clientDisconnect: bool, bytesTransferred: Bytes)

  /** The request as `statsd_event` reads it, absent attributes given by
      their `getattr` defaults (false, 0, no response). */
  datatype Request = Request(
    verb: string,
    path: string,
    clientDisconnect: bool,
    bytesTransferred: Bytes,
    response: Option<Response>)

  /** The entries `informant.status` and `informant.start_time` of the WSGI
      environment, each of which may be missing. */
  datatype Env = Env(status: Option<int>, startTime: Option<real>)

  const DefaultValidMethods: string := "GET,HEAD,POST,PUT,DELETE,COPY"
  const BadMethod: string := "BAD_METHOD"
  const DisconnectStatus: int := 499

  /** The lookup table indexed by the number of '/' in the path; a count
      past its end raises IndexError, which is caught and read as "obj". */
  const StatTypes: seq<string> := ["invalid", "invalid", "acct", "cont", "obj"]

  // ---------------------------------------------------------------------
  // Valid methods

  /** The entry one piece of the setting yields: the piece stripped and
      upper-cased, or nothing when it is blank. */
  function Entry(p: string): (r: Option<string>)
    requires ',' !in p
    ensures r.Some? <==> Strip(p) != ""
    ensures r.Some? ==> IsMethodName(r.value)
  {
    var t := Strip(p);
    if t != "" then
      UpperKeepsName(p);
      Some(Upper(t))
    else None
  }

  /** The entries kept from the pieces of the setting, in order. */
  function MethodEntries(parts: seq<string>): (r: seq<string>)
    requires CommaFree(parts)
    ensures |r| <= |parts|
    ensures AllMethodNames(r)
  {
    if parts == [] then []
    else
      TailCommaFree(parts);
      var rest := MethodEntries(parts[1..]);
      match Entry(parts[0])
      case Some(m) =>
        ConsMethodName(m, rest);
        [m] + rest
      case None => rest
  }

  /** Every entry of a list is a method name. */
  predicate AllMethodNames(ms: seq<string>) {
    forall i :: 0 <= i < |ms| ==> IsMethodName(ms[i])
  }

  lemma ConsMethodName(m: string, ms: seq<string>)
    requires IsMethodName(m) && AllMethodNames(ms)
    ensures AllMethodNames([m] + ms)
  {
    var r := [m] + ms;
    forall i | 0 <= i < |r| ensures IsMethodName(r[i]) {
      if i > 0 {
        assert r[i] == ms[i - 1];
      }
    }
  }

  lemma TailCommaFree(parts: seq<string>)
    requires parts != [] && CommaFree(parts)
    ensures CommaFree(parts[1..])
  {
    var rest := parts[1..];
    forall i | 0 <= i < |rest| ensures ',' !in rest[i] {
      assert rest[i] == parts[i + 1];
    }
  }

  /** The pieces of a comma split hold no comma. */
  predicate CommaFree(parts: seq<string>) {
    forall i :: 0 <= i < |parts| ==> ',' !in parts[i]
  }

  /** Whether piece `p` of the setting yields entry `m`. */
  predicate Yields(p: string, m: string) {
    ',' !in p && Entry(p) == Some(m)
  }

  lemma MethodEntriesMembers(parts: seq<string>, m: string)
    requires CommaFree(parts)
    ensures m in MethodEntries(parts) <==> exists p :: p in parts && Yields(p, m)
  {
    if m in MethodEntries(parts) {
      EntryHasPiece(parts, m);
    }
    if exists p :: p in parts && Yields(p, m) {
      var p :| p in parts && Yields(p, m);
      PieceHasEntry(parts, p, m);
    }
  }

  lemma {:induction false} EntryHasPiece(parts: seq<string>, m: string)
    requires CommaFree(parts)
    requires m in MethodEntries(parts)
    ensures exists p :: p in parts && Yields(p, m)
  {
    var rest := MethodEntries(parts[1..]);
    if Entry(parts[0]) == Some(m) {
      assert parts[0] in parts && Yields(parts[0], m);
    } else {
      assert m in rest;
      EntryHasPiece(parts[1..], m);
      var p :| p in parts[1..] && Yields(p, m);
      assert p in parts;
    }
  }

  lemma {:induction false} PieceHasEntry(parts: seq<string>, p: string, m: string)
    requires CommaFree(parts)
    requires p in parts && Yields(p, m)
    ensures m in MethodEntries(parts)
  {
    var rest := MethodEntries(parts[1..]);
    if p != parts[0] {
      assert p in parts[1..];
      PieceHasEntry(parts[1..], p, m);
      assert m in rest;
    }
  }

  /** What every entry of the valid-methods list looks like: not empty, no
      comma, no lower-case letter and no whitespace at either end. */
  predicate IsMethodName(m: string) {
    && m != "" && ',' !in m
    && Upper(m) == m
    && !IsSpace(m[0]) && !IsSpace(m[|m| - 1])
  }

  lemma UpperKeepsName(p: string)
    requires ',' !in p && Strip(p) != ""
    ensures IsMethodName(Upper(Strip(p)))
  {
    var t := Strip(p);
    StripAvoids(p, ',');
    UpperAvoidsComma(t);
    UpperKeepsEnds(t);
    UpperIdempotent(t);
  }

  lemma StripAvoids(p: string, c: char)
    requires c !in p
    ensures c !in Strip(p)
  {
    var t := Strip(p);
    var i :| PaddedAt(p, t, i);
    forall k | 0 <= k < |t| ensures t[k] != c {
      assert t[k] == p[i + k];
    }
  }

  lemma UpperAvoidsComma(t: string)
    requires ',' !in t
    ensures ',' !in Upper(t)
  {
    var u := Upper(t);
    forall k | 0 <= k < |u| ensures u[k] != ',' {
      assert u[k] == UpperChar(t[k]);
    }
  }

  lemma UpperKeepsEnds(t: string)
    requires t != "" && !IsSpace(t[0]) && !IsSpace(t[|t| - 1])
    ensures !IsSpace(Upper(t)[0]) && !IsSpace(Upper(t)[|t| - 1])
  {
  }

  lemma UpperIdempotent(s: string)
    ensures Upper(Upper(s)) == Upper(s)
  {
    UpperUnchanged(Upper(s));
  }

  /** Pieces that are already stripped, upper-cased and not blank are kept
      as they are. */
  lemma {:induction false} CleanEntriesKept(parts: seq<string>)
    requires AllMethodNames(parts)
    ensures CommaFree(parts) && MethodEntries(parts) == parts
  {
    assert CommaFree(parts);
    if parts != [] {
      var rest := parts[1..];
      forall i | 0 <= i < |rest| ensures IsMethodName(rest[i]) {
        assert rest[i] == parts[i + 1];
      }
      CleanEntriesKept(rest);
      CleanEntryKept(parts[0]);
      TailCommaFree(parts);
      assert MethodEntries(parts) == [parts[0]] + MethodEntries(rest);
      assert parts == [parts[0]] + rest;
    }
  }

  lemma CleanEntryKept(p: string)
    requires IsMethodName(p)
    ensures Entry(p) == Some(p)
  {
    StripUnchanged(p);
  }

  /** `valid_methods`: the comma-separated entries of the setting that are
      not blank, stripped and upper-cased. */
  function ParseValidMethods(conf: string): (r: seq<string>)
    ensures AllMethodNames(r)
  {
    MethodEntries(Split(conf, ','))
  }

  /** The valid methods are exactly the stripped, upper-cased forms of the
      non-blank comma-separated pieces of the setting. */
  lemma ParseValidMethodsMembers(conf: string, m: string)
    ensures m in ParseValidMethods(conf) <==> exists p :: p in Split(conf, ',') && Yields(p, m)
  {
    MethodEntriesMembers(Split(conf, ','), m);
  }

  /** The upper-cased method when it is one of the valid methods, the
      literal BAD_METHOD otherwise. */
  function NormalizeMethod(validMethods: seq<string>, verb: string): (r: string)
    ensures r in validMethods || r == BadMethod
    ensures Upper(verb) in validMethods ==> r == Upper(verb)
    ensures Upper(verb) !in validMethods ==> r == BadMethod
  {
    var m := Upper(verb);
    if m in validMethods then m else BadMethod
  }

  // ---------------------------------------------------------------------
  // Resource type

  /** The resource type, read off the raw number of '/' characters in the
      path; every path gets one. */
  function StatType(path: string): (r: string)
    ensures r == "invalid" <==> CountChar(path, '/') <= 1
    ensures r == "acct" <==> CountChar(path, '/') == 2
    ensures r == "cont" <==> CountChar(path, '/') == 3
    ensures r == "obj" <==> CountChar(path, '/') >= 4
  {
    var n := CountChar(path, '/');
    if n < |StatTypes| then StatTypes[n] else "obj"
  }

  /** A trailing slash is one more '/': it moves an account path to the
      container type and a container path to the object type. */
  lemma TrailingSlashCounts(path: string)
    ensures CountChar(path, '/') == 2 ==> StatType(path + "/") == "cont"
    ensures CountChar(path, '/') == 3 ==> StatType(path + "/") == "obj"
  {
    CountCharAppend(path, "/", '/');
  }

  /** The path `/s1/s2/.../sn` made of segments that hold no '/'. */
  function PathOf(segments: seq<string>): string {
    if segments == [] then ""
    else PathOf(segments[..|segments| - 1]) + "/" + segments[|segments| - 1]
  }

  lemma {:induction false} PathSlashes(segments: seq<string>)
    requires forall i :: 0 <= i < |segments| ==> '/' !in segments[i]
    ensures CountChar(PathOf(segments), '/') == |segments|
  {
    if segments != [] {
      var init := segments[..|segments| - 1];
      var last := segments[|segments| - 1];
      PathSlashes(init);
      CountCharAppend(PathOf(init) + "/", last, '/');
      CountCharAppend(PathOf(init), "/", '/');
    }
  }

  /** For a path of segments: one segment (or none) is invalid, two an
      account, three a container, four or more an object. */
  lemma PathSegmentsType(segments: seq<string>)
    requires forall i :: 0 <= i < |segments| ==> '/' !in segments[i]
    ensures |segments| <= 1 ==> StatType(PathOf(segments)) == "invalid"
    ensures |segments| == 2 ==> StatType(PathOf(segments)) == "acct"
    ensures |segments| == 3 ==> StatType(PathOf(segments)) == "cont"
    ensures |segments| >= 4 ==> StatType(PathOf(segments)) == "obj"
  {
    PathSlashes(segments);
  }

  // ---------------------------------------------------------------------
  // Status

  /** The recorded status, or 499 when the request or its response reports
      that the client went away. */
  function ResolveStatus(recorded: int, req: Request): (r: int)
    ensures req.clientDisconnect ==> r == DisconnectStatus
    ensures req.response.Some? && req.response.value.clientDisconnect ==> r == DisconnectStatus
    ensures !req.clientDisconnect && (req.response.None? || !req.response.value.clientDisconnect) ==> r == recorded
  {
    var disconnected := req.clientDisconnect || (req.response.Some? && req.response.value.clientDisconnect);
    if disconnected then DisconnectStatus else recorded
  }

  /** The status code the `start_response` wrapper records from a status
      line: the text before the first space, read by `int()`; None stands
      for the ValueError raised on anything that is not an integer. */
  function ParseStatusLine(line: string): (r: Option<int>)
    ensures ' ' !in line ==> r == ParseInt(Strip(line))
    ensures Cut(line, ' ').Some? ==> r == ParseInt(Strip(Cut(line, ' ').value.0))
  {
    var token := match Cut(line, ' ')
      case None => line
      case Some((before, _)) => before;
    ParseInt(Strip(token))
  }

  /** A status line made of a code, a space and any reason phrase records
      exactly that code. */
  lemma StatusLineRoundTrip(code: int, reason: string)
    ensures ParseStatusLine(IntToString(code) + " " + reason) == Some(code)
  {
    var digits := IntToString(code);
    assert ' ' !in digits;
    CutAt(digits, ' ', reason);
    StripUnchanged(digits);
    IntToStringRoundTrip(code);
  }

  /** Whatever follows the first space is ignored: the code is `int()` of
      the text before it. */
  lemma StatusLineCode(code: string, reason: string)
    requires ' ' !in code
    ensures ParseStatusLine(code + " " + reason) == ParseInt(Strip(code))
  {
    CutAt(code, ' ', reason);
  }

  /** `int()` reads a code written with a leading zero as the code. */
  lemma PaddedStatusLine(code: nat, reason: string)
    ensures ParseStatusLine("0" + NatToString(code) + " " + reason) == Some(code)
  {
    PaddedCode(code);
    StatusLineCode("0" + NatToString(code), reason);
  }

  lemma PaddedCode(code: nat)
    ensures ' ' !in "0" + NatToString(code)
    ensures ParseInt(Strip("0" + NatToString(code))) == Some(code)
  {
    var digits := "0" + NatToString(code);
    LeadingZeroValue(NatToString(code));
    assert ' ' !in digits by {
      assert forall k :: 0 <= k < |digits| ==> IsDigit(digits[k]);
    }
    StripUnchanged(digits);
    NatToStringValue(code);
  }

  /** `int()` reads a code written with a plus sign as the code. */
  lemma SignedStatusLine(code: nat, reason: string)
    ensures ParseStatusLine("+" + NatToString(code) + " " + reason) == Some(code)
  {
    SignedCode(code);
    StatusLineCode("+" + NatToString(code), reason);
  }

  lemma SignedCode(code: nat)
    ensures ' ' !in "+" + NatToString(code)
    ensures ParseInt(Strip("+" + NatToString(code))) == Some(code)
  {
    var digits := "+" + NatToString(code);
    assert ' ' !in digits by {
      assert forall k :: 1 <= k < |digits| ==> IsDigit(digits[k]);
    }
    StripUnchanged(digits);
    assert digits[0] == '+' && |digits| >= 2;
    assert digits[1..] == NatToString(code);
    NatToStringValue(code);
  }

  /** A status line that starts with a space has an empty code, which
      `int()` refuses. */
  lemma LeadingSpaceStatusLine(rest: string)
    ensures ParseStatusLine(" " + rest) == None
  {
    assert " " + rest == "" + [' '] + rest;
    CutAt("", ' ', rest);
  }

  // ---------------------------------------------------------------------
  // Bytes transferred

  /** The byte count reported: the request's own unless it is "-" or 0, in
      which case the response's; a "-" left after that becomes 0. */
  function ResolveTransferred(req: Request): (r: Bytes)
    ensures r != Dash
    ensures req.bytesTransferred != Dash && req.bytesTransferred != Num(0) ==> r == req.bytesTransferred
    ensures req.bytesTransferred in {Dash, Num(0)} && req.response.None? ==> r == Num(0)
    ensures req.bytesTransferred in {Dash, Num(0)} && req.response.Some? ==>
              r == (if req.response.value.bytesTransferred == Dash then Num(0)
                    else req.response.value.bytesTransferred)
  {
    var transferred :=
      if req.bytesTransferred == Dash || req.bytesTransferred == Num(0) then
        match req.response
        case None => Num(0)
        case Some(resp) => resp.bytesTransferred
      else req.bytesTransferred;
    if transferred == Dash then Num(0) else transferred
  }

  /** `%s` of a byte count: an integer in decimal, a string as it is. */
  function RenderBytes(b: Bytes): (r: string)
    ensures b.Num? ==> ParseInt(r) == Some(b.n)
    ensures b.Str? ==> r == b.s
  {
    match b
    case Num(n) => IntToStringRoundTrip(n); IntToString(n)
    case Str(s) => s
  }

  // ---------------------------------------------------------------------
  // Timer

  /** `%d` of a duration in milliseconds: truncation toward zero. */
  function TruncMs(x: real): (r: int)
    ensures 0.0 <= x ==> r as real <= x < r as real + 1.0
    ensures x < 0.0 ==> r as real - 1.0 < x <= r as real
  {
    if x >= 0.0 then x.Floor else -((-x).Floor)
  }

  // ---------------------------------------------------------------------
  // Line protocol

  /** `<type>.<method>.<status>`; when neither the type nor the method holds
      a '.', the name splits back into its three fields. */
  function MetricName(statType: string, verb: string, status: int): (r: string)
    ensures '.' !in statType && '.' !in verb ==>
              Split(r, '.') == [statType, verb, IntToString(status)]
  {
    NameFields(statType, verb, IntToString(status));
    statType + "." + verb + "." + IntToString(status)
  }

  lemma NameFields(statType: string, verb: string, code: string)
    requires '.' !in code
    ensures '.' !in statType && '.' !in verb ==>
              Split(statType + "." + verb + "." + code, '.') == [statType, verb, code]
  {
    if '.' !in statType && '.' !in verb {
      SplitJoin([statType, verb, code], '.');
      assert Join([statType, verb, code], '.') == statType + "." + verb + "." + code by {
        assert Join([code], '.') == code;
        assert [statType, verb, code][1..] == [verb, code];
        assert [verb, code][1..] == [code];
      }
    }
  }

  /** One statsd line: `<name>:<value>|<kind>|@<rate>`. */
  datatype Metric = Metric(name: string, value: string, kind: string, rate: string)

  function FormatMetric(m: Metric): string {
    m.name + ":" + m.value + "|" + m.kind + "|@" + m.rate
  }

  /** How a statsd collector reads a line: the name up to the first ':',
      the value and the kind up to the next two '|', then '@' and the rate. */
  function ParseMetric(line: string): Option<Metric> {
    match Cut(line, ':')
    case None => None
    case Some((name, afterName)) =>
      match Cut(afterName, '|')
      case None => None
      case Some((value, afterValue)) =>
        match Cut(afterValue, '|')
        case None => None
        case Some((kind, afterKind)) =>
          if |afterKind| >= 1 && afterKind[0] == '@'
          then Some(Metric(name, value, kind, afterKind[1..]))
          else None
  }

  /** A line reads back as the metric it was built from, as long as the
      name holds no ':' and the value and kind hold no '|'. */
  lemma ParseFormat(m: Metric)
    requires ':' !in m.name && '|' !in m.value && '|' !in m.kind
    ensures ParseMetric(FormatMetric(m)) == Some(m)
  {
    var tail3 := "@" + m.rate;
    var tail2 := m.kind + "|" + tail3;
    var tail1 := m.value + "|" + tail2;
    assert FormatMetric(m) == m.name + [':'] + tail1;
    CutAt(m.name, ':', tail1);
    CutAt(m.value, '|', tail2);
    CutAt(m.kind, '|', tail3);
    assert tail3[1..] == m.rate;
  }

  /** The three metrics of one sampled event: counter, timer and transfer,
      in that order; None when `informant.status` or `informant.start_time`
      is missing, where the source's NameError is caught and nothing is sent. */
  function EventMetrics(
    prepend: string, rateText: string, validMethods: seq<string>,
    env: Env, req: Request, now: real): (r: Option<seq<Metric>>)
    ensures r.Some? <==> env.status.Some? && env.startTime.Some?
    ensures r.Some? ==>
              var name := MetricName(StatType(req.path),
                                     NormalizeMethod(validMethods, req.verb),
                                     ResolveStatus(env.status.value, req));
              r.value == [
                Metric(prepend + name, "1", "c", rateText),
                Metric(prepend + name,
                       IntToString(TruncMs((now - env.startTime.value) * 1000.0)),
                       "ms", rateText),
                Metric(prepend + "tfer." + name,
                       RenderBytes(ResolveTransferred(req)), "c", rateText)]
  {
    match (env.status, env.startTime)
    case (Some(recorded), Some(start)) =>
      var verb := NormalizeMethod(validMethods, req.verb);
      var name := MetricName(StatType(req.path), verb, ResolveStatus(recorded, req));
      var duration := (now - start) * 1000.0;
      Some([
        Metric(prepend + name, "1", "c", rateText),
        Metric(prepend + name, IntToString(TruncMs(duration)), "ms", rateText),
        Metric(prepend + "tfer." + name, RenderBytes(ResolveTransferred(req)), "c", rateText)])
    case _ => None
  }

  /** The three line-protocol strings of one sampled event. */
  function EventLines(
    prepend: string, rateText: string, validMethods: seq<string>,
    env: Env, req: Request, now: real): (r: Option<seq<string>>)
    ensures r.Some? <==> env.status.Some? && env.startTime.Some?
    ensures r.Some? ==> |r.value| == 3
  {
    match EventMetrics(prepend, rateText, validMethods, env, req, now)
    case None => None
    case Some(ms) => Some([FormatMetric(ms[0]), FormatMetric(ms[1]), FormatMetric(ms[2])])
  }

  /** Each line of an event reads back as the metric it was built from (so
      the counter and the timer carry the same name, the transfer that name
      behind "tfer.", all three the configured rate), as long as the prefix
      and the valid methods hold no ':' and the byte count no '|'. */
  lemma EventLinesReadBack(
    prepend: string, rateText: string, validMethods: seq<string>,
    env: Env, req: Request, now: real)
    requires env.status.Some? && env.startTime.Some?
    requires ':' !in prepend
    requires forall i :: 0 <= i < |validMethods| ==> ':' !in validMethods[i]
    requires '|' !in RenderBytes(ResolveTransferred(req))
    ensures var lines := EventLines(prepend, rateText, validMethods, env, req, now).value;
            var ms := EventMetrics(prepend, rateText, validMethods, env, req, now).value;
            forall i :: 0 <= i < 3 ==> ParseMetric(lines[i]) == Some(ms[i])
  {
    var ms := EventMetrics(prepend, rateText, validMethods, env, req, now).value;
    var lines := EventLines(prepend, rateText, validMethods, env, req, now).value;
    var verb := NormalizeMethod(validMethods, req.verb);
    var status := ResolveStatus(env.status.value, req);
    var statType := StatType(req.path);
    NormalizedAvoids(validMethods, req.verb);
    NameHasNoColon(prepend, statType, verb, status);
    forall i | 0 <= i < 3 ensures ParseMetric(lines[i]) == Some(ms[i]) {
      assert lines[i] == FormatMetric(ms[i]);
      ParseFormat(ms[i]);
    }
  }

  lemma NormalizedAvoids(validMethods: seq<string>, verb: string)
    requires forall i :: 0 <= i < |validMethods| ==> ':' !in validMethods[i]
    ensures ':' !in NormalizeMethod(validMethods, verb)
  {
    var r := NormalizeMethod(validMethods, verb);
    if r != BadMethod {
      var i :| 0 <= i < |validMethods| && validMethods[i] == r;
    }
  }

  lemma NameHasNoColon(prepend: string, statType: string, verb: string, status: int)
    requires statType in StatTypes && ':' !in prepend && ':' !in verb
    ensures ':' !in prepend + MetricName(statType, verb, status)
    ensures ':' !in prepend + "tfer." + MetricName(statType, verb, status)
  {
    assert ':' !in IntToString(status);
  }
}
