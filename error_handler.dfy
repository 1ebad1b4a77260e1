/** The Python client's handling of error responses from a remote end (ErrorHandler.check_response):
    the wire-protocol error code table, the classification of a status into an exception class,
    and the message, screenshot, stack trace and alert text the raised exception carries. The
    string codes are the error codes of section 6.6 ("Errors") of the W3C WebDriver specification;
    the numeric ones are the legacy wire-protocol codes. */
module ErrorHandler {
  import opened Wrappers
  import opened Strings

  /** A decoded JSON value as Python holds it. A dict is its list of entries in insertion order,
      with distinct keys. */
  datatype PyVal =
    | PNone
    | PBool(b: bool)
    | PInt(i: int)
    | PStr(s: string)
    | PList(items: seq<PyVal>)
    | PTuple(items: seq<PyVal>)
    | PDict(entries: seq<(string, PyVal)>)

  /** Python truthiness. */
  predicate Truthy(v: PyVal)
  {
    match v
    case PNone => false
    case PBool(b) => b
    case PInt(i) => i != 0
    case PStr(s) => s != ""
    case PList(items) => items != []
    case PTuple(items) => items != []
    case PDict(entries) => entries != []
  }

  /** Python `==` on the values the table compares: `True == 1` and `False == 0`. */
  predicate PyEq(a: PyVal, b: PyVal)
  {
    match (a, b)
    case (PBool(x), PInt(j)) => (if x then 1 else 0) == j
    case (PInt(j), PBool(x)) => (if x then 1 else 0) == j
    case _ => a == b
  }

  /** Python `a or b`. */
  function Or(a: PyVal, b: PyVal): (r: PyVal)
    ensures Truthy(a) ==> r == a
    ensures !Truthy(a) ==> r == b
  {
    if Truthy(a) then a else b
  }

  predicate HasKey(d: seq<(string, PyVal)>, k: string)
  {
    exists i | 0 <= i < |d| :: d[i].0 == k
  }

  /** `d[k]` for a key that is present. */
  function Lookup(d: seq<(string, PyVal)>, k: string): (v: PyVal)
    requires HasKey(d, k)
    ensures exists i | 0 <= i < |d| :: d[i] == (k, v)
  {
    if d[0].0 == k then d[0].1 else Lookup(d[1..], k)
  }

  /** `d.get(k, default)`. */
  function Get(d: seq<(string, PyVal)>, k: string, default: PyVal): (v: PyVal)
    ensures HasKey(d, k) ==> exists i | 0 <= i < |d| :: d[i] == (k, v)
    ensures !HasKey(d, k) ==> v == default
  {
    if HasKey(d, k) then Lookup(d, k) else default
  }

  /** `str(v)`; the quoting inside containers ignores escape sequences. */
  function PyStr(v: PyVal): string
  {
    if v.PStr? then v.s else Repr(v)
  }

  function Repr(v: PyVal): string
  {
    match v
    case PNone => "None"
    case PBool(b) => if b then "True" else "False"
    case PInt(i) => IntToString(i)
    case PStr(s) => "'" + s + "'"
    case PList(items) => "[" + ReprItems(items) + "]"
    case PTuple(items) => "(" + ReprItems(items) + (if |items| == 1 then ",)" else ")")
    case PDict(entries) => "{" + ReprEntries(entries) + "}"
  }

  function ReprItems(items: seq<PyVal>): string
  {
    if items == [] then ""
    else Repr(items[0]) + (if |items| == 1 then "" else ", " + ReprItems(items[1..]))
  }

  function ReprEntries(entries: seq<(string, PyVal)>): string
  {
    if entries == [] then ""
    else
      assert entries[0].1 < entries[0];
      "'" + entries[0].0 + "': " + Repr(entries[0].1) + (if |entries| == 1 then "" else ", " + ReprEntries(entries[1..]))
  }

  // The ErrorCode table.

  const SUCCESS: int := 0
  const NO_SUCH_ELEMENT: seq<PyVal> := [PInt(7), PStr("no such element")]
  const NO_SUCH_FRAME: seq<PyVal> := [PInt(8), PStr("no such frame")]
  const NO_SUCH_SHADOW_ROOT: seq<PyVal> := [PStr("no such shadow root")]
  const UNKNOWN_COMMAND: seq<PyVal> := [PInt(9), PStr("unknown command")]
  const STALE_ELEMENT_REFERENCE: seq<PyVal> := [PInt(10), PStr("stale element reference")]
  const ELEMENT_NOT_VISIBLE: seq<PyVal> := [PInt(11), PStr("element not visible")]
  const INVALID_ELEMENT_STATE: seq<PyVal> := [PInt(12), PStr("invalid element state")]
  const UNKNOWN_ERROR: seq<PyVal> := [PInt(13), PStr("unknown error")]
  const ELEMENT_IS_NOT_SELECTABLE: seq<PyVal> := [PInt(15), PStr("element not selectable")]
  const JAVASCRIPT_ERROR: seq<PyVal> := [PInt(17), PStr("javascript error")]
  const XPATH_LOOKUP_ERROR: seq<PyVal> := [PInt(19), PStr("invalid selector")]
  const TIMEOUT: seq<PyVal> := [PInt(21), PStr("timeout")]
  const NO_SUCH_WINDOW: seq<PyVal> := [PInt(23), PStr("no such window")]
  const INVALID_COOKIE_DOMAIN: seq<PyVal> := [PInt(24), PStr("invalid cookie domain")]
  const UNABLE_TO_SET_COOKIE: seq<PyVal> := [PInt(25), PStr("unable to set cookie")]
  const UNEXPECTED_ALERT_OPEN: seq<PyVal> := [PInt(26), PStr("unexpected alert open")]
  const NO_ALERT_OPEN: seq<PyVal> := [PInt(27), PStr("no such alert")]
  const SCRIPT_TIMEOUT: seq<PyVal> := [PInt(28), PStr("script timeout")]
  const INVALID_ELEMENT_COORDINATES: seq<PyVal> := [PInt(29), PStr("invalid element coordinates")]
  const IME_NOT_AVAILABLE: seq<PyVal> := [PInt(30), PStr("ime not available")]
  const IME_ENGINE_ACTIVATION_FAILED: seq<PyVal> := [PInt(31), PStr("ime engine activation failed")]
  const INVALID_SELECTOR: seq<PyVal> := [PInt(32), PStr("invalid selector")]
  const SESSION_NOT_CREATED: seq<PyVal> := [PInt(33), PStr("session not created")]
  const MOVE_TARGET_OUT_OF_BOUNDS: seq<PyVal> := [PInt(34), PStr("move target out of bounds")]
  const INVALID_XPATH_SELECTOR: seq<PyVal> := [PInt(51), PStr("invalid selector")]
  const INVALID_XPATH_SELECTOR_RETURN_TYPER: seq<PyVal> := [PInt(52), PStr("invalid selector")]
  const ELEMENT_NOT_INTERACTABLE: seq<PyVal> := [PInt(60), PStr("element not interactable")]
  const INSECURE_CERTIFICATE: seq<PyVal> := [PStr("insecure certificate")]
  const INVALID_ARGUMENT: seq<PyVal> := [PInt(61), PStr("invalid argument")]
  const INVALID_COORDINATES: seq<PyVal> := [PStr("invalid coordinates")]
  const INVALID_SESSION_ID: seq<PyVal> := [PStr("invalid session id")]
  const NO_SUCH_COOKIE: seq<PyVal> := [PInt(62), PStr("no such cookie")]
  const UNABLE_TO_CAPTURE_SCREEN: seq<PyVal> := [PInt(63), PStr("unable to capture screen")]
  const ELEMENT_CLICK_INTERCEPTED: seq<PyVal> := [PInt(64), PStr("element click intercepted")]
  const UNKNOWN_METHOD: seq<PyVal> := [PStr("unknown method exception")]
  const METHOD_NOT_ALLOWED: seq<PyVal> := [PInt(405), PStr("unsupported operation")]

  datatype ExceptionClass =
    | NoSuchElementException | NoSuchFrameException | NoSuchShadowRootException | NoSuchWindowException
    | StaleElementReferenceException | ElementNotVisibleException | InvalidElementStateException
    | InvalidSelectorException | ElementNotSelectableException | ElementNotInteractableException
    | InvalidCookieDomainException | UnableToSetCookieException | TimeoutException | WebDriverException
    | UnexpectedAlertPresentException | NoAlertPresentException | ImeNotAvailableException
    | ImeActivationFailedException | MoveTargetOutOfBoundsException | JavascriptException
    | SessionNotCreatedException | InvalidArgumentException | NoSuchCookieException | ScreenshotException
    | ElementClickInterceptedException | InsecureCertificateException | InvalidCoordinatesException
    | InvalidSessionIdException | UnknownMethodException

  /** The if/elif chain, in its order: a code tuple and the class it selects. The three selector
      tuples of one branch are tested together. */
  const RuleCount: nat := 30

  function Rule(k: nat): (seq<PyVal>, ExceptionClass)
    requires k < RuleCount
  {
    match k
    case 0 => (NO_SUCH_ELEMENT, NoSuchElementException)
    case 1 => (NO_SUCH_FRAME, NoSuchFrameException)
    case 2 => (NO_SUCH_SHADOW_ROOT, NoSuchShadowRootException)
    case 3 => (NO_SUCH_WINDOW, NoSuchWindowException)
    case 4 => (STALE_ELEMENT_REFERENCE, StaleElementReferenceException)
    case 5 => (ELEMENT_NOT_VISIBLE, ElementNotVisibleException)
    case 6 => (INVALID_ELEMENT_STATE, InvalidElementStateException)
    case 7 => (INVALID_SELECTOR + INVALID_XPATH_SELECTOR + INVALID_XPATH_SELECTOR_RETURN_TYPER, InvalidSelectorException)
    case 8 => (ELEMENT_IS_NOT_SELECTABLE, ElementNotSelectableException)
    case 9 => (ELEMENT_NOT_INTERACTABLE, ElementNotInteractableException)
    case 10 => (INVALID_COOKIE_DOMAIN, InvalidCookieDomainException)
    case 11 => (UNABLE_TO_SET_COOKIE, UnableToSetCookieException)
    case 12 => (TIMEOUT, TimeoutException)
    case 13 => (SCRIPT_TIMEOUT, TimeoutException)
    case 14 => (UNKNOWN_ERROR, WebDriverException)
    case 15 => (UNEXPECTED_ALERT_OPEN, UnexpectedAlertPresentException)
    case 16 => (NO_ALERT_OPEN, NoAlertPresentException)
    case 17 => (IME_NOT_AVAILABLE, ImeNotAvailableException)
    case 18 => (IME_ENGINE_ACTIVATION_FAILED, ImeActivationFailedException)
    case 19 => (MOVE_TARGET_OUT_OF_BOUNDS, MoveTargetOutOfBoundsException)
    case 20 => (JAVASCRIPT_ERROR, JavascriptException)
    case 21 => (SESSION_NOT_CREATED, SessionNotCreatedException)
    case 22 => (INVALID_ARGUMENT, InvalidArgumentException)
    case 23 => (NO_SUCH_COOKIE, NoSuchCookieException)
    case 24 => (UNABLE_TO_CAPTURE_SCREEN, ScreenshotException)
    case 25 => (ELEMENT_CLICK_INTERCEPTED, ElementClickInterceptedException)
    case 26 => (INSECURE_CERTIFICATE, InsecureCertificateException)
    case 27 => (INVALID_COORDINATES, InvalidCoordinatesException)
    case 28 => (INVALID_SESSION_ID, InvalidSessionIdException)
    case _ => (UNKNOWN_METHOD, UnknownMethodException)
  }

  /** `status in tuple`. */
  predicate InTuple(status: PyVal, t: seq<PyVal>)
  {
    exists i | 0 <= i < |t| :: PyEq(status, t[i])
  }

  /** The first rule from `k` on whose tuple holds the status, or `WebDriverException`. */
  function ClassifyFrom(status: PyVal, k: nat): ExceptionClass
    requires k <= RuleCount
    decreases RuleCount - k
  {
    if k == RuleCount then WebDriverException
    else if InTuple(status, Rule(k).0) then Rule(k).1
    else ClassifyFrom(status, k + 1)
  }

  /** The class a status selects; `ClassifyIsFirstMatch` states which. */
  function Classify(status: PyVal): ExceptionClass
  {
    ClassifyFrom(status, 0)
  }

  /** First match: the class is that of the first rule whose tuple holds the status. */
  lemma {:induction false} ClassifyFromFirstMatch(status: PyVal, k: nat, j: nat)
    requires k <= j < RuleCount && InTuple(status, Rule(j).0)
    requires forall i | k <= i < j :: !InTuple(status, Rule(i).0)
    ensures ClassifyFrom(status, k) == Rule(j).1
    decreases j - k
  {
    if k < j {
      assert !InTuple(status, Rule(k).0);
      ClassifyFromFirstMatch(status, k + 1, j);
    }
  }

  /** A status in no tuple falls through to `WebDriverException`. */
  lemma {:induction false} ClassifyFromUnlisted(status: PyVal, k: nat)
    requires k <= RuleCount
    requires forall i | k <= i < RuleCount :: !InTuple(status, Rule(i).0)
    ensures ClassifyFrom(status, k) == WebDriverException
    decreases RuleCount - k
  {
    if k < RuleCount {
      ClassifyFromUnlisted(status, k + 1);
    }
  }

  /** Classification as the chain states it: the first matching branch wins, and no match means
      `WebDriverException`. */
  lemma ClassifyIsFirstMatch(status: PyVal)
    ensures (forall i | 0 <= i < RuleCount :: !InTuple(status, Rule(i).0)) ==> Classify(status) == WebDriverException
    ensures forall j | 0 <= j < RuleCount && InTuple(status, Rule(j).0) &&
      (forall i | 0 <= i < j :: !InTuple(status, Rule(i).0)) :: Classify(status) == Rule(j).1
  {
    if forall i | 0 <= i < RuleCount :: !InTuple(status, Rule(i).0) {
      ClassifyFromUnlisted(status, 0);
    }
    forall j | 0 <= j < RuleCount && InTuple(status, Rule(j).0) && (forall i | 0 <= i < j :: !InTuple(status, Rule(i).0))
      ensures Classify(status) == Rule(j).1
    {
      ClassifyFromFirstMatch(status, 0, j);
    }
  }

  /** The numeric and the string code of one entry select the same class. */
  lemma NoSuchElementCodes()
    ensures Classify(PInt(7)) == NoSuchElementException
    ensures Classify(PStr("no such element")) == NoSuchElementException
  {
    assert PyEq(PInt(7), Rule(0).0[0]) && PyEq(PStr("no such element"), Rule(0).0[1]);
    ClassifyFromFirstMatch(PInt(7), 0, 0);
    ClassifyFromFirstMatch(PStr("no such element"), 0, 0);
  }

  /** The selector string and the selector codes 32, 51 and 52 all select
      `InvalidSelectorException`. */
  lemma SelectorCodes()
    ensures Classify(PStr("invalid selector")) == InvalidSelectorException
    ensures Classify(PInt(32)) == InvalidSelectorException
    ensures Classify(PInt(51)) == InvalidSelectorException
    ensures Classify(PInt(52)) == InvalidSelectorException
  {
    SelectorString();
    SelectorLegacyCode();
    XPathSelectorCodes();
  }

  lemma SelectorString()
    ensures Classify(PStr("invalid selector")) == InvalidSelectorException
  {
    SelectorCode(PStr("invalid selector"), 1);
  }

  lemma SelectorLegacyCode()
    ensures Classify(PInt(32)) == InvalidSelectorException
  {
    SelectorCode(PInt(32), 0);
  }

  lemma XPathSelectorCodes()
    ensures Classify(PInt(51)) == InvalidSelectorException
    ensures Classify(PInt(52)) == InvalidSelectorException
  {
    SelectorCode(PInt(51), 2);
    SelectorCode(PInt(52), 4);
  }

  lemma SelectorCode(status: PyVal, k: nat)
    requires k < |Rule(7).0| && Rule(7).0[k] == status
    requires forall i | 0 <= i < 7 :: status !in Rule(i).0 && !status.PBool?
    ensures Classify(status) == InvalidSelectorException
  {
    assert PyEq(status, Rule(7).0[k]);
    ClassifyFromFirstMatch(status, 0, 7);
  }

  /** Both the page-load and the script timeout select `TimeoutException`. */
  lemma TimeoutCodes()
    ensures Classify(PInt(21)) == TimeoutException && Classify(PInt(28)) == TimeoutException
  {
    PageLoadTimeoutCode();
    ScriptTimeoutCode();
  }

  lemma PageLoadTimeoutCode()
    ensures Classify(PInt(21)) == TimeoutException
  {
    assert PyEq(PInt(21), Rule(12).0[0]);
    ClassifyFromFirstMatch(PInt(21), 0, 12);
  }

  lemma ScriptTimeoutCode()
    ensures Classify(PInt(28)) == TimeoutException
  {
    assert PyEq(PInt(28), Rule(13).0[0]);
    ClassifyFromFirstMatch(PInt(28), 0, 13);
  }

  /** The legacy 19 (XPATH_LOOKUP_ERROR) is never tested, so it falls through to
      `WebDriverException`. */
  lemma UncheckedXPathLookupCode()
    ensures Classify(PInt(19)) == WebDriverException
  {
    ClassifyFromUnlisted(PInt(19), 0);
  }

  /** So do UNKNOWN_COMMAND's 9 and METHOD_NOT_ALLOWED's 405. */
  lemma UncheckedCommandCodes()
    ensures Classify(PInt(9)) == WebDriverException && Classify(PInt(405)) == WebDriverException
  {
    UncheckedUnknownCommandCode();
    UncheckedMethodNotAllowedCode();
  }

  lemma UncheckedUnknownCommandCode()
    ensures Classify(PInt(9)) == WebDriverException
  {
    ClassifyFromUnlisted(PInt(9), 0);
  }

  lemma UncheckedMethodNotAllowedCode()
    ensures Classify(PInt(405)) == WebDriverException
  {
    ClassifyFromUnlisted(PInt(405), 0);
  }

  /** The Python errors the method lets escape, besides the exception it raises on purpose. */
  datatype PyError = KeyError | AttributeError | TypeError

  /** What `check_response` does: returns, raises a WebDriver exception, or fails with a Python
      error of its own. */
  datatype Outcome =
    | Returned
    | Raised(cls: ExceptionClass, msg: PyVal, screen: PyVal, stacktrace: Option<seq<string>>, alertText: Option<PyVal>)
    | Crashed(error: PyError)

  /** `_value_or_default(obj, key, default)`: `key in obj`, then `obj[key]`. Membership tests a
      dict's keys, a list's or tuple's items and a string's substrings; indexing with a string
      only works on a dict. None is a `TypeError`. */
  function ValueOrDefault(obj: PyVal, key: string, default: PyVal): (r: Option<PyVal>)
    ensures obj.PDict? ==> r == Some(Get(obj.entries, key, default))
  {
    match obj
    case PDict(entries) => Some(Get(entries, key, default))
    case PStr(s) => if Contains(s, key) then None else Some(default)
    case PList(items) => if PStr(key) in items then None else Some(default)
    case PTuple(items) => if PStr(key) in items then None else Some(default)
    case _ => None
  }

  /** One formatted stack frame, "    at [Class.]method (file[:line])"; None when the frame
      raises a `TypeError` (the last lookup stands for the `'className' in frame` test and the
      index that follows it). */
  function FormatFrame(frame: PyVal): Option<string>
  {
    var line := ValueOrDefault(frame, "lineNumber", PStr(""));
    var file := ValueOrDefault(frame, "fileName", PStr("<anonymous>"));
    var meth := ValueOrDefault(frame, "methodName", PStr("<anonymous>"));
    var className := ValueOrDefault(frame, "className", PNone);
    if line.None? || file.None? || meth.None? || className.None? then None
    else
      var fileText := if Truthy(line.value) then PyStr(file.value) + ":" + PyStr(line.value) else PyStr(file.value);
      var methText :=
        if frame.PDict? && HasKey(frame.entries, "className") then PyStr(Lookup(frame.entries, "className")) + "." + PyStr(meth.value)
        else PyStr(meth.value);
      Some("    at " + methText + " (" + fileText + ")")
  }

  /** A dict frame always formats; a formatted frame reads "    at " … ")". */
  lemma FormatFrameShape(frame: PyVal)
    ensures frame.PDict? ==> FormatFrame(frame).Some?
    ensures var r := FormatFrame(frame);
      r.Some? ==> |r.value| > 9 && r.value[..7] == "    at " && r.value[|r.value| - 1] == ')'
  {
  }

  /** A dict frame without any of the keys formats with the defaults. */
  lemma FrameDefaults()
    ensures FormatFrame(PDict([])) == Some("    at " + "<anonymous>" + " (" + "<anonymous>" + ")")
  {
    FrameWithoutKeys([]);
  }

  lemma FrameWithoutKeys(e: seq<(string, PyVal)>)
    requires !HasKey(e, "lineNumber") && !HasKey(e, "fileName") && !HasKey(e, "methodName") && !HasKey(e, "className")
    ensures FormatFrame(PDict(e)) == Some("    at " + "<anonymous>" + " (" + "<anonymous>" + ")")
  {
    assert !Truthy(PStr(""));
    assert PyStr(PStr("<anonymous>")) == "<anonymous>";
  }

  /** A dict frame with every key shows every part. */
  lemma FrameAllParts(c: PyVal, m: PyVal, f: PyVal, l: PyVal)
    requires Truthy(l)
    ensures FormatFrame(PDict([("className", c), ("methodName", m), ("fileName", f), ("lineNumber", l)])) ==
      Some("    at " + (PyStr(c) + "." + PyStr(m)) + " (" + (PyStr(f) + ":" + PyStr(l)) + ")")
  {
    var d := [("className", c), ("methodName", m), ("fileName", f), ("lineNumber", l)];
    assert HasKey(d, "lineNumber") && Lookup(d, "lineNumber") == l by {
      assert d[3].0 == "lineNumber";
    }
    assert HasKey(d, "fileName") && Lookup(d, "fileName") == f by {
      assert d[2].0 == "fileName";
    }
    assert HasKey(d, "methodName") && Lookup(d, "methodName") == m by {
      assert d[1].0 == "methodName";
    }
    assert HasKey(d, "className") && Lookup(d, "className") == c by {
      assert d[0].0 == "className";
    }
    FrameWithAllKeys(d, c, m, f, l);
  }

  lemma FrameWithAllKeys(d: seq<(string, PyVal)>, c: PyVal, m: PyVal, f: PyVal, l: PyVal)
    requires Truthy(l)
    requires HasKey(d, "lineNumber") && Lookup(d, "lineNumber") == l
    requires HasKey(d, "fileName") && Lookup(d, "fileName") == f
    requires HasKey(d, "methodName") && Lookup(d, "methodName") == m
    requires HasKey(d, "className") && Lookup(d, "className") == c
    ensures FormatFrame(PDict(d)) == Some("    at " + (PyStr(c) + "." + PyStr(m)) + " (" + (PyStr(f) + ":" + PyStr(l)) + ")")
  {
  }

  /** The frames formatted in order until the first one that raises a `TypeError`; the lines
      already appended are kept. */
  function FramesTrace(frames: seq<PyVal>): (r: seq<string>)
    ensures |r| <= |frames|
  {
    if frames == [] then []
    else
      match FormatFrame(frames[0])
      case None => []
      case Some(line) => [line] + FramesTrace(frames[1..])
  }

  /** The trace holds the formatted frames in order, and stops short only at a frame that
      raises. */
  lemma {:induction false} FramesTraceLines(frames: seq<PyVal>)
    ensures var r := FramesTrace(frames);
      (forall i | 0 <= i < |r| :: FormatFrame(frames[i]) == Some(r[i])) &&
      (|r| < |frames| ==> FormatFrame(frames[|r|]).None?)
  {
    if frames != [] {
      var line := FormatFrame(frames[0]);
      if line.Some? {
        FramesTraceLines(frames[1..]);
        LinesCons(frames, line.value, FramesTrace(frames[1..]));
      }
    }
  }

  /** The lines of the remaining frames, behind the first frame's line. */
  lemma LinesCons(frames: seq<PyVal>, line: string, tail: seq<string>)
    requires frames != [] && FormatFrame(frames[0]) == Some(line) && tail == FramesTrace(frames[1..])
    requires forall i | 0 <= i < |tail| :: FormatFrame(frames[1..][i]) == Some(tail[i])
    requires |tail| < |frames| - 1 ==> FormatFrame(frames[1..][|tail|]).None?
    ensures var r := FramesTrace(frames);
      (forall i | 0 <= i < |r| :: FormatFrame(frames[i]) == Some(r[i])) &&
      (|r| < |frames| ==> FormatFrame(frames[|r|]).None?)
  {
    var r := [line] + tail;
    assert FramesTrace(frames) == r;
    forall i | 0 <= i < |r| ensures FormatFrame(frames[i]) == Some(r[i]) {
      if i > 0 {
        assert frames[i] == frames[1..][i - 1];
      }
    }
    if |r| < |frames| {
      assert frames[|r|] == frames[1..][|r| - 1];
    }
  }

  /** The loop over the frames: appends each formatted frame, leaving it at the first
      `TypeError`. */
  method FormatStackTrace(frames: seq<PyVal>) returns (stacktrace: seq<string>)
    ensures stacktrace == FramesTrace(frames)
  {
    stacktrace := [];
    var i := 0;
    while i < |frames|
      invariant 0 <= i <= |frames|
      invariant FramesTrace(frames) == stacktrace + FramesTrace(frames[i..])
    {
      var line := FormatFrame(frames[i]);
      FramesTraceStep(frames, i, line);
      if line.None? {
        return;
      }
      stacktrace := stacktrace + [line.value];
      i := i + 1;
    }
  }

  /** One step of the loop: the trace of the remaining frames starts with the first one's line,
      or is empty when that frame raises. */
  lemma FramesTraceStep(frames: seq<PyVal>, i: nat, line: Option<string>)
    requires i < |frames| && line == FormatFrame(frames[i])
    ensures line.None? ==> FramesTrace(frames[i..]) == []
    ensures line.Some? ==> FramesTrace(frames[i..]) == [line.value] + FramesTrace(frames[i + 1..])
  {
    assert frames[i..][0] == frames[i] && frames[i..][1..] == frames[i + 1..];
  }

  /** What `for frame in st_value` walks: a list's or tuple's items or a dict's keys; a number is
      not iterable, the `TypeError` is caught and the trace stays empty. */
  function Frames(st: PyVal): seq<PyVal>
  {
    match st
    case PList(items) => items
    case PTuple(items) => items
    case PDict(entries) => seq(|entries|, i requires 0 <= i < |entries| => PStr(entries[i].0))
    case _ => []
  }

  /** The stack trace: absent when falsy, split on newlines when a string, frames otherwise. */
  function StackTrace(st: PyVal): (r: Option<seq<string>>)
    ensures !Truthy(st) <==> r.None?
    ensures st.PStr? && Truthy(st) ==> r == Some(Split(st.s, '\n'))
  {
    if !Truthy(st) then None
    else if st.PStr? then Some(Split(st.s, '\n'))
    else Some(FramesTrace(Frames(st)))
  }

  /** Lines 119-139: the status, value and message after unwrapping a JSON-encoded value, which is
      only tried for an integer status (a bool is one too). `loads` is `json.loads`, None on a
      `ValueError`, which is caught and leaves the value empty. */
  function Decode(response: seq<(string, PyVal)>, status: PyVal, loads: string -> Option<PyVal>)
    : (r: Result<(PyVal, PyVal, PyVal), PyError>)
    ensures !(status.PInt? || status.PBool?) ==> r == Ok((status, PNone, Get(response, "message", PStr(""))))
  {
    var message := Get(response, "message", PStr(""));
    var valueJson := Get(response, "value", PNone);
    if !(status.PInt? || status.PBool?) || !(Truthy(valueJson) && valueJson.PStr?) then Ok((status, PNone, message))
    else
      match loads(valueJson.s)
      case None => Ok((status, PNone, message))
      case Some(v) =>
        if !v.PDict? then Err(AttributeError)
        else if |v.entries| == 1 && !HasKey(v.entries, "value") then Err(KeyError)
        else
          var value := if |v.entries| == 1 then Lookup(v.entries, "value") else v;
          if !value.PDict? then Err(AttributeError)
          else
            var error := Get(value.entries, "error", PNone);
            if Truthy(error) then Ok((error, value, Get(value.entries, "message", PNone)))
            else
              var newStatus := Get(value.entries, "status", PTuple(UNKNOWN_ERROR));
              var m := Or(Get(value.entries, "value", PNone), Get(value.entries, "message", PNone));
              if m.PStr? then Ok((newStatus, value, m))
              else if !m.PDict? then Err(AttributeError)
              else Ok((newStatus, m, Get(m.entries, "message", PNone)))
  }

  /** The Python error a value that is neither a dict nor a string meets first: a `TypeError` on
      a membership test or string index, else an `AttributeError` on `.get`. */
  function NonDictError(value: PyVal, message: PyVal): PyError
  {
    match value
    case PList(items) =>
      if (PyEq(message, PStr("")) && PStr("message") in items) || PStr("screen") in items then TypeError else AttributeError
    case PTuple(items) =>
      if (PyEq(message, PStr("")) && PStr("message") in items) || PStr("screen") in items then TypeError else AttributeError
    case _ => TypeError
  }

  /** `value[key].get('text')`. */
  function AlertText(value: seq<(string, PyVal)>, key: string): Result<PyVal, PyError>
    requires HasKey(value, key)
  {
    var holder := Lookup(value, key);
    if holder.PDict? then Ok(Get(holder.entries, "text", PNone)) else Err(AttributeError)
  }

  /** Lines 206-245: the exception raised for class `cls`. */
  function Report(response: seq<(string, PyVal)>, cls: ExceptionClass, value0: PyVal, message0: PyVal): (r: Outcome)
    ensures !r.Returned?
    ensures !Truthy(value0) && !HasKey(response, "value") ==> r == Crashed(KeyError)
    ensures value0.PStr? && Truthy(value0) ==> r == Raised(cls, value0, PNone, None, None)
    ensures r.Raised? ==> r.cls == cls && (r.alertText.Some? ==> cls == UnexpectedAlertPresentException)
  {
    if !Truthy(value0) && !HasKey(response, "value") then Crashed(KeyError)
    else
      var value := if !Truthy(value0) then Lookup(response, "value") else value0;
      if value.PStr? then Raised(cls, value, PNone, None, None)
      else if !value.PDict? then Crashed(NonDictError(value, message0))
      else ReportDict(cls, value.entries, message0)
  }

  /** Lines 210-245, for a dict value `d`. */
  function ReportDict(cls: ExceptionClass, d: seq<(string, PyVal)>, message0: PyVal): (r: Outcome)
    ensures r.Raised? ==> r.cls == cls && (r.alertText.Some? ==> cls == UnexpectedAlertPresentException)
  {
    var message := if PyEq(message0, PStr("")) && HasKey(d, "message") then Lookup(d, "message") else message0;
    var screen := Get(d, "screen", PNone);
    var stacktrace := StackTrace(Or(Get(d, "stackTrace", PNone), Get(d, "stacktrace", PNone)));
    if cls != UnexpectedAlertPresentException then Raised(cls, message, screen, stacktrace, None)
    else
      var alert := if HasKey(d, "data") then AlertText(d, "data")
                   else if HasKey(d, "alert") then AlertText(d, "alert")
                   else Ok(PNone);
      match alert
      case Err(e) => Crashed(e)
      case Ok(text) => Raised(cls, message, screen, stacktrace, Some(text))
  }

  /** `check_response`. */
  function CheckResponse(response: seq<(string, PyVal)>, loads: string -> Option<PyVal>): (r: Outcome)
    ensures r.Returned? <==> !Truthy(Get(response, "status", PNone))
  {
    var status := Get(response, "status", PNone);
    if !Truthy(status) || PyEq(status, PInt(SUCCESS)) then Returned
    else
      match Decode(response, status, loads)
      case Err(e) => Crashed(e)
      case Ok((newStatus, value, message)) => Report(response, Classify(newStatus), value, message)
  }

  /** A string status with a string value raises the class of the status with the value as its
      message, unparsed. */
  lemma StringValueRaisedAsIs(response: seq<(string, PyVal)>, loads: string -> Option<PyVal>, status: string, value: string)
    requires HasKey(response, "status") && Lookup(response, "status") == PStr(status) && status != ""
    requires HasKey(response, "value") && Lookup(response, "value") == PStr(value) && value != ""
    ensures CheckResponse(response, loads) == Raised(Classify(PStr(status)), PStr(value), PNone, None, None)
  {
  }

  /** An integer status whose string value is not JSON behaves the same way. */
  lemma UnparsableValueRaisedAsIs(response: seq<(string, PyVal)>, loads: string -> Option<PyVal>, status: int, value: string)
    requires HasKey(response, "status") && Lookup(response, "status") == PInt(status) && status != 0
    requires HasKey(response, "value") && Lookup(response, "value") == PStr(value) && value != ""
    requires loads(value).None?
    ensures CheckResponse(response, loads) == Raised(Classify(PInt(status)), PStr(value), PNone, None, None)
  {
  }

  /** The alert text of an unexpected-alert error comes from `value['data']['text']`, else from
      `value['alert']['text']`. */
  lemma AlertTextSource(response: seq<(string, PyVal)>, data: seq<(string, PyVal)>, message: PyVal)
    requires HasKey(data, "data") && Lookup(data, "data").PDict?
    ensures Report(response, UnexpectedAlertPresentException, PDict(data), message).Raised?
    ensures Report(response, UnexpectedAlertPresentException, PDict(data), message).alertText ==
      Some(Get(Lookup(data, "data").entries, "text", PNone))
  {
    assert data != [];
    assert Report(response, UnexpectedAlertPresentException, PDict(data), message) ==
      ReportDict(UnexpectedAlertPresentException, data, message);
  }

  lemma AlertTextFallback(response: seq<(string, PyVal)>, data: seq<(string, PyVal)>, message: PyVal)
    requires !HasKey(data, "data") && HasKey(data, "alert") && Lookup(data, "alert").PDict?
    ensures Report(response, UnexpectedAlertPresentException, PDict(data), message).alertText ==
      Some(Get(Lookup(data, "alert").entries, "text", PNone))
  {
    assert data != [];
    assert Report(response, UnexpectedAlertPresentException, PDict(data), message) ==
      ReportDict(UnexpectedAlertPresentException, data, message);
  }

  /** Other classes carry no alert text, and the stack trace of a dict value is read from
      "stackTrace", else "stacktrace". */
  lemma OtherClassesCarryNoAlert(response: seq<(string, PyVal)>, cls: ExceptionClass, d: seq<(string, PyVal)>, message: PyVal)
    requires cls != UnexpectedAlertPresentException && d != []
    ensures var r := Report(response, cls, PDict(d), message);
      r.Raised? && r.alertText.None? && r.screen == Get(d, "screen", PNone) &&
      r.stacktrace == StackTrace(Or(Get(d, "stackTrace", PNone), Get(d, "stacktrace", PNone))) &&
      r.msg == (if message == PStr("") && HasKey(d, "message") then Lookup(d, "message") else message)
  {
    assert Report(response, cls, PDict(d), message) == ReportDict(cls, d, message);
  }

  /** `_value_or_default` on a dict: the entry when the key is present, else the default. */
  lemma ValueOrDefaultOnDict(d: seq<(string, PyVal)>, key: string, default: PyVal)
    ensures HasKey(d, key) ==> ValueOrDefault(PDict(d), key, default) == Some(Lookup(d, key))
    ensures !HasKey(d, key) ==> ValueOrDefault(PDict(d), key, default) == Some(default)
  {
  }
}
