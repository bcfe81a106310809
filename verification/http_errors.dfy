/** The library's HTTP error: what it reads out of the error body the
    service sends back, the validation failures listed in it, and the
    one-line text it is raised with. */
module HttpErrors {
  import opened Wrappers
  import opened PyText
  import opened PyValues
  import opened Exceptions

  /** `AuthException(message, original)`: the message it is raised with and
      the exception that caused it. */
  datatype AuthException = AuthException(message: string, original: Exc)

  // ------------------------------------------------------------ validation failures

  datatype ValidationFailure = ValidationFailure(
    fieldName: PyValue,
    invalidValue: PyValue,
    message: PyValue,
    messageCode: PyValue,
    messageVars: PyValue)

  /** `ValidationFailure(d)`: `fieldName`, `errorMessage`, `errorCode` and
      `messageVars` are required and read in that order, `invalidValue` is
      optional; subscripting anything but a dictionary is a `TypeError`. */
  function ValidationFailureOf(d: PyValue): (r: Result<ValidationFailure, Exc>)
    ensures !d.PyDict? ==> r.Err? && r.error.TypeError?
  {
    if !d.PyDict? then Err(TypeError("object is not subscriptable by str"))
    else
      var kvs := d.entries;
      var fieldName :- Required(kvs, "fieldName");
      var invalidValue := DictGet(kvs, "invalidValue").GetOr(PyNone);
      var message :- Required(kvs, "errorMessage");
      var messageCode :- Required(kvs, "errorCode");
      var messageVars :- Required(kvs, "messageVars");
      Ok(ValidationFailure(fieldName, invalidValue, message, messageCode, messageVars))
  }

  /** What a dictionary's failure holds, or which key it misses first. */
  lemma ValidationFailureReads(d: PyValue)
    requires d.PyDict?
    ensures var r := ValidationFailureOf(d);
      var kvs := d.entries;
      (r.Err? <==> DictGet(kvs, "fieldName").None? || DictGet(kvs, "errorMessage").None? ||
                   DictGet(kvs, "errorCode").None? || DictGet(kvs, "messageVars").None?) &&
      (DictGet(kvs, "fieldName").None? ==> r == Err(KeyError("fieldName"))) &&
      (DictGet(kvs, "fieldName").Some? && DictGet(kvs, "errorMessage").None? ==>
         r == Err(KeyError("errorMessage"))) &&
      (r.Ok? ==>
         Some(r.value.fieldName) == DictGet(kvs, "fieldName") &&
         Some(r.value.message) == DictGet(kvs, "errorMessage") &&
         Some(r.value.messageCode) == DictGet(kvs, "errorCode") &&
         Some(r.value.messageVars) == DictGet(kvs, "messageVars") &&
         r.value.invalidValue == DictGet(kvs, "invalidValue").GetOr(PyNone))
  {
  }

  /** `d[key]`. */
  function Required(kvs: seq<(string, PyValue)>, key: string): (r: Result<PyValue, Exc>)
    ensures r.Ok? <==> DictGet(kvs, key).Some?
    ensures r.Ok? ==> Some(r.value) == DictGet(kvs, key)
    ensures r.Err? ==> r.error == KeyError(key)
  {
    match DictGet(kvs, key)
    case Some(v) => Ok(v)
    case None => Err(KeyError(key))
  }

  /** The index of the first value that is not a valid failure, if any. */
  predicate FirstInvalid(vs: seq<PyValue>, i: nat) {
    i < |vs| && ValidationFailureOf(vs[i]).Err? &&
    forall j :: 0 <= j < i ==> ValidationFailureOf(vs[j]).Ok?
  }

  /** `[ValidationFailure(d) for d in vs]`: every value read in order; the
      first one that fails stops the list with its error. */
  function Failures(vs: seq<PyValue>): (r: Result<seq<ValidationFailure>, Exc>)
    ensures r.Ok? <==> forall k :: 0 <= k < |vs| ==> ValidationFailureOf(vs[k]).Ok?
    ensures r.Ok? ==> |r.value| == |vs|
    ensures r.Ok? ==> forall k :: 0 <= k < |vs| ==> r.value[k] == ValidationFailureOf(vs[k]).value
    ensures r.Err? ==> exists i: nat :: FirstInvalid(vs, i) && r.error == ValidationFailureOf(vs[i]).error
  {
    if vs == [] then Ok([])
    else
      var head := ValidationFailureOf(vs[0]);
      if head.Err? then
        assert FirstInvalid(vs, 0);
        Err(head.error)
      else
        var rest := Failures(vs[1..]);
        assert forall k :: 1 <= k < |vs| ==> vs[k] == vs[1..][k - 1];
        if rest.Err? then
          FirstInvalidShift(vs, rest.error);
          Err(rest.error)
        else
          Ok([head.value] + rest.value)
  }

  /** Behind a valid first value, the first invalid value of the rest is the
      first invalid value of the whole. */
  lemma FirstInvalidShift(vs: seq<PyValue>, e: Exc)
    requires vs != [] && ValidationFailureOf(vs[0]).Ok?
    requires exists i: nat :: FirstInvalid(vs[1..], i) && e == ValidationFailureOf(vs[1..][i]).error
    ensures exists i: nat :: FirstInvalid(vs, i) && e == ValidationFailureOf(vs[i]).error
  {
    var i: nat :| FirstInvalid(vs[1..], i) && e == ValidationFailureOf(vs[1..][i]).error;
    assert forall k :: 1 <= k < |vs| ==> vs[k] == vs[1..][k - 1];
    assert FirstInvalid(vs, i + 1);
  }

  /** The values of a dictionary, in order. */
  function Values(kvs: seq<(string, PyValue)>): (r: seq<PyValue>)
    ensures |r| == |kvs| && forall k :: 0 <= k < |kvs| ==> r[k] == kvs[k].1
  {
    seq(|kvs|, k requires 0 <= k < |kvs| => kvs[k].1)
  }

  /** `validation_failures`: `None` when the body has none (missing or null),
      otherwise the failures read from the values of that dictionary;
      anything without `.values()` is an `AttributeError`. */
  function FailuresOf(data: PyValue): (r: Result<Option<seq<ValidationFailure>>, Exc>)
    ensures data == PyNone ==> r == Ok(None)
    ensures data != PyNone && !data.PyDict? ==> r == Err(AttributeError("values"))
    ensures data.PyDict? ==>
      (r.Ok? <==> Failures(Values(data.entries)).Ok?) &&
      (r.Ok? ==> r.value == Some(Failures(Values(data.entries)).value)) &&
      (r.Err? ==> r.error == Failures(Values(data.entries)).error)
  {
    if data == PyNone then Ok(None)
    else if !data.PyDict? then Err(AttributeError("values"))
    else
      var failures :- Failures(Values(data.entries));
      Ok(Some(failures))
  }

  // ------------------------------------------------------------ HTTPException

  datatype HttpException = HttpException(
    status: int,
    route: string,
    raw: PyValue,
    message: PyValue,
    messageCode: PyValue,
    messageVars: PyValue,
    code: PyValue,
    originatingService: PyValue,
    intent: PyValue,
    validationFailures: Option<seq<ValidationFailure>>,
    text: string)

  /** The fields read from the body: the body itself when it is a
      dictionary, an empty dictionary otherwise. */
  function ErrorFields(body: PyValue): seq<(string, PyValue)> {
    if body.PyDict? then body.entries else []
  }

  /** The text the exception is raised with. */
  function Text(status: int, message: PyValue, messageCode: PyValue): string {
    var fmt := if messageCode != PyNone then Str(message)
               else IntToString(status) + " - " + Str(message);
    "Code: \"" + Str(messageCode) + "\" - " + fmt
  }

  /** `HTTPException(response, route, message, request_headers)`. */
  function NewHttpException(status: int, route: string, body: PyValue): (r: Result<HttpException, Exc>)
    ensures var err := ErrorFields(body);
      (r.Ok? <==> FailuresOf(DictGet(err, "validationFailures").GetOr(PyNone)).Ok?) &&
      (r.Err? ==> r.error == FailuresOf(DictGet(err, "validationFailures").GetOr(PyNone)).error) &&
      (r.Ok? ==>
        r.value.status == status && r.value.route == route && r.value.raw == body &&
        r.value.message == DictGet(err, "errorMessage").GetOr(PyNone) &&
        r.value.messageCode == DictGet(err, "errorCode").GetOr(PyNone) &&
        r.value.messageVars == DictGet(err, "messageVars").GetOr(PyList([])) &&
        r.value.code == DictGet(err, "numericErrorCode").GetOr(PyNone) &&
        r.value.originatingService == DictGet(err, "originatingService").GetOr(PyNone) &&
        r.value.intent == DictGet(err, "intent").GetOr(PyNone) &&
        r.value.validationFailures ==
          FailuresOf(DictGet(err, "validationFailures").GetOr(PyNone)).value &&
        r.value.text == Text(status, r.value.message, r.value.messageCode))
  {
    var err := ErrorFields(body);
    var message := DictGet(err, "errorMessage").GetOr(PyNone);
    var messageCode := DictGet(err, "errorCode").GetOr(PyNone);
    var failures :- FailuresOf(DictGet(err, "validationFailures").GetOr(PyNone));
    Ok(HttpException(
      status, route, body, message, messageCode,
      DictGet(err, "messageVars").GetOr(PyList([])),
      DictGet(err, "numericErrorCode").GetOr(PyNone),
      DictGet(err, "originatingService").GetOr(PyNone),
      DictGet(err, "intent").GetOr(PyNone),
      failures,
      Text(status, message, messageCode)))
  }

  /** A body that is not a dictionary carries no fields: every field is
      `None`, the message variables an empty list, and the text names only
      the status. */
  lemma NonDictBody(status: int, route: string, body: PyValue)
    requires !body.PyDict?
    ensures NewHttpException(status, route, body).Ok?
    ensures var e := NewHttpException(status, route, body).value;
      e.message == PyNone && e.messageCode == PyNone && e.code == PyNone &&
      e.originatingService == PyNone && e.intent == PyNone &&
      e.messageVars == PyList([]) && e.validationFailures.None? &&
      e.text == "Code: \"None\" - " + IntToString(status) + " - None"
  {
    assert ErrorFields(body) == [];
    NoCodeText(status, PyNone);
    assert " - " + Str(PyNone) == " - None";
    ConcatAssoc(NoCodeHead, IntToString(status), " - None");
  }

  // ------------------------------------------------------------ reading the text back

  /** The text before the first `c`. */
  function UpTo(s: string, c: char): (r: string)
    ensures c !in r && r <= s
  {
    if s == [] || s[0] == c then [] else [s[0]] + UpTo(s[1..], c)
  }

  lemma {:induction false} UpToConcat(a: string, b: string, c: char)
    requires c !in a && b != [] && b[0] == c
    ensures UpTo(a + b, c) == a
  {
    if a != [] {
      assert (a + b)[0] == a[0];
      assert (a + b)[1..] == a[1..] + b;
      UpToConcat(a[1..], b, c);
    } else {
      assert a + b == b;
    }
  }

  const CodeHead := "Code: \""
  const NoCodeHead := "Code: \"None\" - "

  /** The error code quoted at the start of an error text. */
  function CodeOfText(t: string): Option<string> {
    if StartsWith(t, CodeHead) then Some(UpTo(t[|CodeHead|..], '"')) else None
  }

  /** The status that follows a missing code in an error text. */
  function StatusOfText(t: string): Option<int> {
    if StartsWith(t, NoCodeHead) then ParseInt(UpTo(t[|NoCodeHead|..], ' ')) else None
  }

  /** A code without quotes is read back from between the quotes. */
  lemma TextReadsCode(status: int, message: PyValue, messageCode: PyValue)
    requires messageCode.PyStr? && '"' !in messageCode.s
    ensures CodeOfText(Text(status, message, messageCode)) == Some(messageCode.s)
  {
    var t := Text(status, message, messageCode);
    var code := messageCode.s;
    var rest := "\" - " + Str(message);
    assert t == CodeHead + (code + rest);
    assert t[|CodeHead|..] == code + rest;
    UpToConcat(code, rest, '"');
  }

  /** Without a code, the text is the fixed head, the status, and the
      message. */
  lemma NoCodeText(status: int, message: PyValue)
    ensures Text(status, message, PyNone) == NoCodeHead + (IntToString(status) + (" - " + Str(message)))
  {
    var n := IntToString(status);
    var m := Str(message);
    assert Str(PyNone) == "None";
    assert "Code: \"" + "None" + "\" - " == NoCodeHead;
    ConcatAssoc(n, " - ", m);
  }

  /** Without a code the text says `None` between the quotes, and the status
      is read back after it. */
  lemma TextReadsStatus(status: int, message: PyValue)
    ensures CodeOfText(Text(status, message, PyNone)) == Some("None")
    ensures StatusOfText(Text(status, message, PyNone)) == Some(status)
  {
    var t := Text(status, message, PyNone);
    var n := IntToString(status);
    var rest := " - " + Str(message);
    NoCodeText(status, message);
    assert NoCodeHead == CodeHead + "None\" - ";
    assert "None\" - " == "None" + "\" - ";
    ConcatAssoc(CodeHead, "None\" - ", n + rest);
    ConcatAssoc("None", "\" - ", n + rest);
    assert t[|CodeHead|..] == "None" + ("\" - " + (n + rest));
    UpToConcat("None", "\" - " + (n + rest), '"');
    assert t[|NoCodeHead|..] == n + rest;
    IntToStringWord(status);
    UpToConcat(n, rest, ' ');
    IntRoundTrip(status);
  }

  /** The text always ends with the message. */
  lemma TextEndsWithMessage(status: int, message: PyValue, messageCode: PyValue)
    ensures var t := Text(status, message, messageCode);
      |Str(message)| <= |t| && t[|t| - |Str(message)|..] == Str(message)
  {
    var m := Str(message);
    var head := if messageCode != PyNone then "Code: \"" + Str(messageCode) + "\" - "
                else "Code: \"" + Str(messageCode) + "\" - " + IntToString(status) + " - ";
    assert Text(status, message, messageCode) == head + m;
    assert (head + m)[|head|..] == m;
  }
}
