/** The response envelope of the dial server and its `status` field, which
    travels as the text `ok` or `fail`. */
module Api {
  import opened Wrappers
  import opened Text

  /** `Status`: whether the server reports success. */
  datatype Status = Ok | Fail

  /** `InvalidStatus`: the text was neither `ok` nor `fail`. */
  datatype InvalidStatus = InvalidStatus

  /** `Response<T>`: a status, a human-readable message and the payload. */
  datatype Response<T> = Response(status: Status, message: string, data: T)

  /** `Display for Status`. */
  function FormatStatus(s: Status): (t: string)
    ensures t == (if s.Ok? then "ok" else "fail")
    ensures Trimmed(t)
  {
    match s
    case Ok => "ok"
    case Fail => "fail"
  }

  /** `FromStr for Status`: trims the text, then compares it with `ok` and
      `fail` ignoring ASCII case. */
  function ParseStatus(s: string): (r: Result<Status, InvalidStatus>)
    ensures r == Result.Ok(Status.Ok) <==> EqIgnoreAsciiCase(Trim(s), "ok")
    ensures r == Result.Ok(Status.Fail) <==> EqIgnoreAsciiCase(Trim(s), "fail")
    ensures r.Err? <==> !EqIgnoreAsciiCase(Trim(s), "ok") && !EqIgnoreAsciiCase(Trim(s), "fail")
  {
    var t := Trim(s);
    assert !(EqIgnoreAsciiCase(t, "ok") && EqIgnoreAsciiCase(t, "fail"));
    if EqIgnoreAsciiCase(t, "ok") then Result.Ok(Status.Ok)
    else if EqIgnoreAsciiCase(t, "fail") then Result.Ok(Status.Fail)
    else Err(InvalidStatus)
  }

  /** Parsing the `Display` of a status gives it back. */
  lemma ParseFormatStatus(s: Status)
    ensures ParseStatus(FormatStatus(s)) == Result.Ok(s)
  {
    var t := FormatStatus(s);
    TrimPadded([], t, []);
    assert [] + t + [] == t;
  }

  /** Any ASCII-case variant of `ok` or `fail`, padded with whitespace, parses. */
  lemma {:induction false} ParseStatusPadded(w1: string, t: string, w2: string, s: Status)
    requires AllWhitespace(w1) && AllWhitespace(w2)
    requires EqIgnoreAsciiCase(t, FormatStatus(s))
    ensures ParseStatus(w1 + t + w2) == Result.Ok(s)
  {
    assert t[0] != ' ' && Trimmed(t) by {
      assert AsciiLower(t[0]) == AsciiLower(FormatStatus(s)[0]);
      assert AsciiLower(t[|t| - 1]) == AsciiLower(FormatStatus(s)[|t| - 1]);
    }
    TrimPadded(w1, t, w2);
  }

  /** `" OK "` parses as `Ok`. */
  lemma ParseStatusUpperPadded()
    ensures ParseStatus(" OK ") == Result.Ok(Status.Ok)
  {
    assert EqIgnoreAsciiCase("OK", "ok");
    ParseStatusPadded(" ", "OK", " ", Status.Ok);
    assert " " + "OK" + " " == " OK ";
  }

  /** Text that is neither word, such as `okay`, is rejected. */
  lemma ParseStatusRejects()
    ensures ParseStatus("okay") == Err(InvalidStatus)
  {
    TrimPadded([], "okay", []);
    assert [] + "okay" + [] == "okay";
  }
}
