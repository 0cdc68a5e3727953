/** The request scenarios of the middleware's unit tests, worked through
    the model: each lemma states the lines (or the part of them the test
    checks) that the derivation produces. The tests replace the sampler by
    one that always answers true, so these go straight to the derivation. */
module Scenarios {

  import opened Wrappers
  import opened Text
  import opened Metrics

  const Methods: seq<string> := ["GET", "HEAD", "POST", "PUT", "DELETE", "COPY"]

  /** The request of a test: the given method and path, no disconnect,
      a request-side byte count and no response object. */
  function TestRequest(verb: string, path: string, bytes: Bytes): Request {
    Request(verb, path, false, bytes, None)
  }

  /** Status 200 recorded, start time 500 seconds before `Now`. */
  const TestEnv: Env := Env(Some(200), Some(1331098000.0))
  const Now: real := 1331098500.0

  lemma DefaultSettingParsed()
    ensures ParseValidMethods(DefaultValidMethods) == Methods
  {
    DefaultSettingIsJoin();
    MethodsAreClean();
    CleanEntriesKept(Methods);
    SplitJoin(Methods, ',');
  }

  lemma DefaultSettingIsJoin()
    ensures Join(Methods, ',') == DefaultValidMethods
  {
    JoinTail();
    assert Methods[1..] == ["HEAD", "POST", "PUT", "DELETE", "COPY"];
  }

  lemma JoinTail()
    ensures Join(["HEAD", "POST", "PUT", "DELETE", "COPY"], ',') == "HEAD,POST,PUT,DELETE,COPY"
  {
    JoinTail2();
    assert ["HEAD", "POST", "PUT", "DELETE", "COPY"][1..] == ["POST", "PUT", "DELETE", "COPY"];
  }

  lemma JoinTail2()
    ensures Join(["POST", "PUT", "DELETE", "COPY"], ',') == "POST,PUT,DELETE,COPY"
  {
    assert Join(["COPY"], ',') == "COPY";
    assert ["DELETE", "COPY"][1..] == ["COPY"];
    assert Join(["DELETE", "COPY"], ',') == "DELETE,COPY";
    assert ["PUT", "DELETE", "COPY"][1..] == ["DELETE", "COPY"];
    assert Join(["PUT", "DELETE", "COPY"], ',') == "PUT,DELETE,COPY";
    assert ["POST", "PUT", "DELETE", "COPY"][1..] == ["PUT", "DELETE", "COPY"];
  }

  lemma MethodsAreClean()
    ensures AllMethodNames(Methods)
  {
    CleanFirstHalf();
    CleanSecondHalf();
  }

  lemma CleanFirstHalf()
    ensures IsMethodName("GET") && IsMethodName("HEAD") && IsMethodName("POST")
  {
    CleanName("GET");
    CleanName("HEAD");
    CleanName("POST");
  }

  lemma CleanSecondHalf()
    ensures IsMethodName("PUT") && IsMethodName("DELETE") && IsMethodName("COPY")
  {
    CleanName("PUT");
    CleanName("DELETE");
    CleanName("COPY");
  }

  lemma CleanName(m: string)
    requires m != [] && forall i :: 0 <= i < |m| ==> 'A' <= m[i] <= 'Z'
    ensures IsMethodName(m)
  {
    UpperUnchanged(m);
  }

  lemma UnknownMethodIsBad()
    ensures NormalizeMethod(Methods, "WTFMONKEYS") == BadMethod
  {
    UpperUnchanged("WTFMONKEYS");
  }

  lemma JunkMethodIsBad()
    ensures NormalizeMethod(Methods, "-JUNK") == BadMethod
  {
    UpperUnchanged("-JUNK");
  }

  lemma LowerCaseMethodIsValid()
    ensures NormalizeMethod(Methods, "get") == "GET"
  {
    assert Upper("get") == "GET";
  }

  /** Each of the default methods is kept as it is. */
  lemma DefaultMethodsKept(m: string)
    requires m in Methods
    ensures NormalizeMethod(Methods, m) == m
  {
    MethodsAreClean();
  }

  /** The timer of the tests: 500 seconds, 500000 milliseconds. */
  lemma TestTimer()
    ensures IntToString(TruncMs((Now - TestEnv.startTime.value) * 1000.0)) == "500000"
  {
    assert TruncMs((Now - TestEnv.startTime.value) * 1000.0) == 500000;
  }

  /** A GET on any object path, that is one with four or more '/': the
      counter, the timer and the transfer of `obj.GET.200`. */
  lemma ObjectRequestLines(path: string)
    requires StatType(path) == "obj"
    ensures EventLines("", "0.5", Methods, TestEnv,
                       TestRequest("GET", path, Str("500")), Now)
            == Some(["obj.GET.200:1|c|@0.5",
                     "obj.GET.200:500000|ms|@0.5",
                     "tfer.obj.GET.200:500|c|@0.5"])
  {
    ObjectRequestMetrics(path);
    TestLines("obj.GET.200", "500000", "500");
    ObjectLinesText();
  }

  /** `/v1/<account>/<container>/<object>` where the object name runs over
      further segments (`theobj/with/extras`): past the end of the type
      table, and still an object. */
  lemma PseudoDirRequestLines(segments: seq<string>)
    requires |segments| >= 4
    requires forall i :: 0 <= i < |segments| ==> '/' !in segments[i]
    ensures EventLines("", "0.5", Methods, TestEnv,
                       TestRequest("GET", PathOf(segments), Str("500")), Now)
            == Some(["obj.GET.200:1|c|@0.5",
                     "obj.GET.200:500000|ms|@0.5",
                     "tfer.obj.GET.200:500|c|@0.5"])
  {
    PathSegmentsType(segments);
    ObjectRequestLines(PathOf(segments));
  }

  lemma ObjectRequestMetrics(path: string)
    requires StatType(path) == "obj"
    ensures EventMetrics("", "0.5", Methods, TestEnv, TestRequest("GET", path, Str("500")), Now)
            == Some(TestMetrics("obj.GET.200", "500000", "500"))
  {
    var req := TestRequest("GET", path, Str("500"));
    DefaultMethodsKept("GET");
    NameTexts();
    ScenarioMetrics(req, "obj.GET.200", "500");
  }

  /** The metric names of the scenarios. */
  lemma NameTexts()
    ensures MetricName("obj", "GET", 200) == "obj.GET.200"
    ensures MetricName("invalid", "GET", 499) == "invalid.GET.499"
    ensures MetricName("invalid", "GET", 200) == "invalid.GET.200"
  {
    assert IntToString(200) == "200" && IntToString(499) == "499";
  }

  /** A client disconnect turns the status into 499. */
  lemma DisconnectLines(path: string)
    requires CountChar(path, '/') <= 1
    ensures EventLines("", "0.5", Methods, TestEnv,
                       Request("GET", path, true, Str("500"), None), Now)
            == Some(["invalid.GET.499:1|c|@0.5",
                     "invalid.GET.499:500000|ms|@0.5",
                     "tfer.invalid.GET.499:500|c|@0.5"])
  {
    DisconnectMetrics(path);
    TestLines("invalid.GET.499", "500000", "500");
    DisconnectLinesText();
  }

  lemma DisconnectMetrics(path: string)
    requires CountChar(path, '/') <= 1
    ensures EventMetrics("", "0.5", Methods, TestEnv, Request("GET", path, true, Str("500"), None), Now)
            == Some(TestMetrics("invalid.GET.499", "500000", "500"))
  {
    var req := Request("GET", path, true, Str("500"), None);
    assert ResolveStatus(200, req) == 499;
    DefaultMethodsKept("GET");
    NameTexts();
    ScenarioMetrics(req, "invalid.GET.499", "500");
  }

  /** A "-" byte count without a response is reported as 0. */
  lemma DashTransferLine(path: string)
    requires CountChar(path, '/') <= 1
    ensures EventLines("", "0.5", Methods, TestEnv,
                       TestRequest("GET", path, Dash), Now)
            == Some(["invalid.GET.200:1|c|@0.5",
                     "invalid.GET.200:500000|ms|@0.5",
                     "tfer.invalid.GET.200:0|c|@0.5"])
  {
    DashTransferMetrics(path);
    TestLines("invalid.GET.200", "500000", "0");
    DashLinesText();
  }

  lemma DashTransferMetrics(path: string)
    requires CountChar(path, '/') <= 1
    ensures EventMetrics("", "0.5", Methods, TestEnv, TestRequest("GET", path, Dash), Now)
            == Some(TestMetrics("invalid.GET.200", "500000", "0"))
  {
    var req := TestRequest("GET", path, Dash);
    DefaultMethodsKept("GET");
    NameTexts();
    assert ResolveTransferred(req) == Num(0);
    ScenarioMetrics(req, "invalid.GET.200", "0");
  }

  /** The event of a test request, given its metric name and byte count. */
  lemma ScenarioMetrics(req: Request, name: string, bytes: string)
    requires MetricName(StatType(req.path), NormalizeMethod(Methods, req.verb),
                        ResolveStatus(200, req)) == name
    requires RenderBytes(ResolveTransferred(req)) == bytes
    ensures EventMetrics("", "0.5", Methods, TestEnv, req, Now)
            == Some(TestMetrics(name, "500000", bytes))
  {
    TestTimer();
    assert "" + name == name;
    assert "" + "tfer." + name == "tfer." + name;
  }

  /** The three metrics of a test event with the empty prefix and rate 0.5. */
  function TestMetrics(name: string, timer: string, bytes: string): seq<Metric> {
    [Metric("" + name, "1", "c", "0.5"),
     Metric("" + name, timer, "ms", "0.5"),
     Metric("" + "tfer." + name, bytes, "c", "0.5")]
  }

  /** The lines of each scenario, spelled out. */
  lemma ObjectLinesText()
    ensures "obj.GET.200" + ":1|c|@0.5" == "obj.GET.200:1|c|@0.5"
    ensures "obj.GET.200" + ":" + "500000" + "|ms|@0.5" == "obj.GET.200:500000|ms|@0.5"
    ensures "tfer." + "obj.GET.200" + ":" + "500" + "|c|@0.5" == "tfer.obj.GET.200:500|c|@0.5"
  {
  }

  lemma DisconnectLinesText()
    ensures "invalid.GET.499" + ":1|c|@0.5" == "invalid.GET.499:1|c|@0.5"
    ensures "invalid.GET.499" + ":" + "500000" + "|ms|@0.5" == "invalid.GET.499:500000|ms|@0.5"
    ensures "tfer." + "invalid.GET.499" + ":" + "500" + "|c|@0.5" == "tfer.invalid.GET.499:500|c|@0.5"
  {
  }

  lemma DashLinesText()
    ensures "invalid.GET.200" + ":1|c|@0.5" == "invalid.GET.200:1|c|@0.5"
    ensures "invalid.GET.200" + ":" + "500000" + "|ms|@0.5" == "invalid.GET.200:500000|ms|@0.5"
    ensures "tfer." + "invalid.GET.200" + ":" + "0" + "|c|@0.5" == "tfer.invalid.GET.200:0|c|@0.5"
  {
  }

  lemma TestLines(name: string, timer: string, bytes: string)
    ensures FormatMetric(TestMetrics(name, timer, bytes)[0]) == name + ":1|c|@0.5"
    ensures FormatMetric(TestMetrics(name, timer, bytes)[1]) == name + ":" + timer + "|ms|@0.5"
    ensures FormatMetric(TestMetrics(name, timer, bytes)[2]) == "tfer." + name + ":" + bytes + "|c|@0.5"
  {
    assert "" + name == name;
    assert "" + "tfer." + name == "tfer." + name;
  }

  /** Without a recorded status nothing is sent. */
  lemma MissingStatusSendsNothing(req: Request)
    ensures EventLines("", "0.5", Methods, Env(None, Some(1331098000.0)), req, Now) == None
  {
  }
}
