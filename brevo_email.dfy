/** The string building of `BrevoEmailService`: JSON escaping, the request
    body of Brevo's transactional e-mail call and the OTP e-mail page. The
    HTTP call itself is not part of this model. */
module BrevoEmail {
  import opened Wrappers
  import opened JavaText

  // ---- escapeJson ----

  /** `String.replace(from, to)` for a one-character target: every
      occurrence of `from`, scanning left to right, becomes `to`. */
  function Replace(s: string, from: char, to: string): (r: string)
    ensures |to| >= 1 ==> |r| >= |s|
    decreases |s|
  {
    if s == [] then "" else (if s[0] == from then to else [s[0]]) + Replace(s[1..], from, to)
  }

  /** `escapeJson`: a null value gives "", otherwise five chained replaces,
      backslash first. */
  function EscapeJson(value: Option<string>): (r: string)
    ensures value.None? ==> r == ""
    ensures value.Some? ==> |r| >= |value.value|
  {
    if value.None? then ""
    else
      Replace(Replace(Replace(Replace(Replace(value.value,
        '\\', "\\\\"), '"', "\\\""), '\n', "\\n"), '\r', "\\r"), '\t', "\\t")
  }

  /** The five characters `escapeJson` rewrites. */
  predicate IsSpecial(c: char)
  {
    c == '\\' || c == '"' || c == '\n' || c == '\r' || c == '\t'
  }

  /** The escape of one character, as a single per-character map. */
  function EscapeChar(c: char): (r: string)
    ensures IsSpecial(c) ==> |r| == 2 && r[0] == '\\'
    ensures !IsSpecial(c) ==> r == [c]
  {
    match c
    case '\\' => "\\\\"
    case '"' => "\\\""
    case '\n' => "\\n"
    case '\r' => "\\r"
    case '\t' => "\\t"
    case _ => [c]
  }

  /** Every character of `s` escaped on its own. */
  function Escaped(s: string): string
    decreases |s|
  {
    if s == [] then "" else EscapeChar(s[0]) + Escaped(s[1..])
  }

  lemma {:induction false} ReplaceAppend(a: string, b: string, from: char, to: string)
    ensures Replace(a + b, from, to) == Replace(a, from, to) + Replace(b, from, to)
    decreases |a|
  {
    if a != [] {
      assert (a + b)[0] == a[0] && (a + b)[1..] == a[1..] + b;
      ReplaceAppend(a[1..], b, from, to);
      var h := if a[0] == from then to else [a[0]];
      assert Replace(a, from, to) == h + Replace(a[1..], from, to);
      assert Replace(a + b, from, to) == h + Replace((a + b)[1..], from, to);
      assert h + (Replace(a[1..], from, to) + Replace(b, from, to))
          == (h + Replace(a[1..], from, to)) + Replace(b, from, to);
    } else {
      assert a + b == b;
    }
  }

  lemma ReplaceOne(c: char, from: char, to: string)
    ensures Replace([c], from, to) == if c == from then to else [c]
  {
    assert [c][1..] == [];
  }

  lemma {:induction false} ReplaceAbsent(s: string, from: char, to: string)
    requires from !in s
    ensures Replace(s, from, to) == s
    decreases |s|
  {
    if s != [] {
      assert s[0] != from && from !in s[1..];
      ReplaceAbsent(s[1..], from, to);
    }
  }

  /** The five replaces applied to one character. */
  lemma ChainOfChar(c: char)
    ensures EscapeJson(Some([c])) == EscapeChar(c)
  {
    ReplaceOne(c, '\\', "\\\\");
    if c == '\\' {
      var e := "\\\\";
      ReplaceAbsent(e, '"', "\\\"");
      ReplaceAbsent(e, '\n', "\\n");
      ReplaceAbsent(e, '\r', "\\r");
      ReplaceAbsent(e, '\t', "\\t");
      return;
    }
    ReplaceOne(c, '"', "\\\"");
    if c == '"' {
      var e := "\\\"";
      ReplaceAbsent(e, '\n', "\\n");
      ReplaceAbsent(e, '\r', "\\r");
      ReplaceAbsent(e, '\t', "\\t");
      return;
    }
    ReplaceOne(c, '\n', "\\n");
    if c == '\n' {
      var e := "\\n";
      ReplaceAbsent(e, '\r', "\\r");
      ReplaceAbsent(e, '\t', "\\t");
      return;
    }
    ReplaceOne(c, '\r', "\\r");
    if c == '\r' {
      ReplaceAbsent("\\r", '\t', "\\t");
      return;
    }
    ReplaceOne(c, '\t', "\\t");
  }

  /** The chained replaces equal the per-character map, because the
      backslash is replaced before any replace that introduces one. */
  lemma {:induction false} EscapeJsonIsPerChar(s: string)
    ensures EscapeJson(Some(s)) == Escaped(s)
    decreases |s|
  {
    if s != [] {
      var c, t := s[0], s[1..];
      assert s == [c] + t;
      var a1, b1 := Replace([c], '\\', "\\\\"), Replace(t, '\\', "\\\\");
      ReplaceAppend([c], t, '\\', "\\\\");
      var a2, b2 := Replace(a1, '"', "\\\""), Replace(b1, '"', "\\\"");
      ReplaceAppend(a1, b1, '"', "\\\"");
      var a3, b3 := Replace(a2, '\n', "\\n"), Replace(b2, '\n', "\\n");
      ReplaceAppend(a2, b2, '\n', "\\n");
      var a4, b4 := Replace(a3, '\r', "\\r"), Replace(b3, '\r', "\\r");
      ReplaceAppend(a3, b3, '\r', "\\r");
      ReplaceAppend(a4, b4, '\t', "\\t");
      ChainOfChar(c);
      EscapeJsonIsPerChar(t);
    }
  }

  lemma {:induction false} EscapedAppend(a: string, b: string)
    ensures Escaped(a + b) == Escaped(a) + Escaped(b)
    decreases |a|
  {
    if a != [] {
      assert (a + b)[0] == a[0] && (a + b)[1..] == a[1..] + b;
      EscapedAppend(a[1..], b);
      var h := EscapeChar(a[0]);
      assert Escaped(a) == h + Escaped(a[1..]);
      assert Escaped(a + b) == h + Escaped((a + b)[1..]);
      assert h + (Escaped(a[1..]) + Escaped(b)) == (h + Escaped(a[1..])) + Escaped(b);
    } else {
      assert a + b == b;
    }
  }

  /** Number of characters of `s` that `escapeJson` rewrites. */
  function SpecialCount(s: string): nat
    decreases |s|
  {
    if s == [] then 0 else (if IsSpecial(s[0]) then 1 else 0) + SpecialCount(s[1..])
  }

  /** The output has one extra character per rewritten character. */
  lemma {:induction false} EscapedLength(s: string)
    ensures |Escaped(s)| == |s| + SpecialCount(s)
    decreases |s|
  {
    if s != [] {
      EscapedLength(s[1..]);
    }
  }

  /** The output holds no raw LF, CR or TAB, and each of its quotes follows
      a backslash. */
  lemma {:induction false} EscapedShape(s: string)
    ensures forall i :: 0 <= i < |Escaped(s)| ==> Escaped(s)[i] != '\n' && Escaped(s)[i] != '\r' && Escaped(s)[i] != '\t'
    ensures forall i :: 0 <= i < |Escaped(s)| && Escaped(s)[i] == '"' ==> 0 < i && Escaped(s)[i - 1] == '\\'
    decreases |s|
  {
    if s != [] {
      EscapedShape(s[1..]);
      var h, t := EscapeChar(s[0]), Escaped(s[1..]);
      assert Escaped(s) == h + t;
      forall i | 0 <= i < |h + t| && (h + t)[i] == '"'
        ensures 0 < i && (h + t)[i - 1] == '\\'
      {
        if i >= |h| {
          assert (h + t)[i] == t[i - |h|];
          if i > |h| {
            assert (h + t)[i - 1] == t[i - 1 - |h|];
          } else {
            assert false;
          }
        }
      }
    }
  }

  /** The character that a backslash followed by `c` stands for, per
      section 7 of RFC 8259, for the two-character escapes. */
  function UnescapeChar(c: char): Option<char>
  {
    match c
    case '\\' => Some('\\')
    case '"' => Some('"')
    case '/' => Some('/')
    case 'b' => Some('\U{8}')
    case 'f' => Some('\U{C}')
    case 'n' => Some('\n')
    case 'r' => Some('\r')
    case 't' => Some('\t')
    case _ => None
  }

  /** Reads the body of a JSON string up to its closing quote: the decoded
      text and what follows the quote, or `None` when no closing quote is
      found or a backslash starts an escape this reader does not know. */
  function ReadString(s: string): Option<(string, string)>
    decreases |s|
  {
    if s == [] then None
    else if s[0] == '"' then Some(("", s[1..]))
    else if s[0] == '\\' then
      if |s| < 2 || UnescapeChar(s[1]).None? then None
      else match ReadString(s[2..])
        case None => None
        case Some(p) => Some(([UnescapeChar(s[1]).value] + p.0, p.1))
    else match ReadString(s[1..])
      case None => None
      case Some(p) => Some(([s[0]] + p.0, p.1))
  }

  /** Round trip: a JSON reader gets back exactly the escaped text, and
      stops at the quote that closes it. */
  lemma {:induction false} ReadEscaped(v: string, t: string)
    ensures ReadString(Escaped(v) + "\"" + t) == Some((v, t))
    decreases |v|
  {
    if v == [] {
      assert Escaped(v) + "\"" + t == "\"" + t;
    } else {
      var c := v[0];
      var rest := Escaped(v[1..]) + "\"" + t;
      assert Escaped(v) + "\"" + t == EscapeChar(c) + rest;
      ReadEscaped(v[1..], t);
      var s := EscapeChar(c) + rest;
      if IsSpecial(c) {
        assert s[2..] == rest;
      } else {
        assert s[1..] == rest;
      }
      assert [c] + v[1..] == v;
    }
  }

  /** A text with no quote and no backslash is read back verbatim. */
  lemma {:induction false} ReadVerbatim(w: string, t: string)
    requires forall i :: 0 <= i < |w| ==> w[i] != '"' && w[i] != '\\'
    ensures ReadString(w + "\"" + t) == Some((w, t))
    decreases |w|
  {
    if w == [] {
      assert w + "\"" + t == "\"" + t;
    } else {
      assert (w + "\"" + t)[1..] == w[1..] + "\"" + t;
      ReadVerbatim(w[1..], t);
      assert [w[0]] + w[1..] == w;
    }
  }

  /** Escaping is injective: distinct values give distinct escapes. */
  lemma EscapeJsonInjective(a: string, b: string)
    requires EscapeJson(Some(a)) == EscapeJson(Some(b))
    ensures a == b
  {
    EscapeJsonIsPerChar(a);
    EscapeJsonIsPerChar(b);
    ReadEscaped(a, "");
    ReadEscaped(b, "");
  }

  /** The body of a JSON string per section 7 of RFC 8259: no raw quote,
      backslash or control character below U+0020, and only the escapes
      the RFC lists. */
  predicate IsJsonStringBody(s: string)
    decreases |s|
  {
    if s == [] then true
    else if s[0] == '\\' then
      && |s| >= 2
      && (|| (UnescapeChar(s[1]).Some? && IsJsonStringBody(s[2..]))
          || (s[1] == 'u' && |s| >= 6 && IsHex4(s[2..6]) && IsJsonStringBody(s[6..])))
    else s[0] != '"' && s[0] >= ' ' && IsJsonStringBody(s[1..])
  }

  predicate IsHex4(s: string)
  {
    |s| == 4 && forall i :: 0 <= i < 4 ==> ('0' <= s[i] <= '9' || 'a' <= s[i] <= 'f' || 'A' <= s[i] <= 'F')
  }

  /** The control characters `escapeJson` leaves alone. */
  predicate IsUnescapedControl(c: char)
  {
    c < ' ' && c != '\n' && c != '\r' && c != '\t'
  }

  /** `escapeJson` yields a valid JSON string body exactly when its input
      holds no control character other than LF, CR and TAB: a backspace,
      form feed or any other control character passes through unchanged. */
  lemma {:induction false} EscapedIsJsonBody(s: string)
    ensures IsJsonStringBody(Escaped(s)) <==> forall i :: 0 <= i < |s| ==> !IsUnescapedControl(s[i])
    decreases |s|
  {
    if s != [] {
      EscapedIsJsonBody(s[1..]);
      var c, t := s[0], Escaped(s[1..]);
      var e := EscapeChar(c) + t;
      assert Escaped(s) == e;
      if IsSpecial(c) {
        assert e[2..] == t;
      } else {
        assert e[1..] == t;
      }
      assert forall i :: 1 <= i < |s| ==> s[i] == s[1..][i - 1];
    }
  }

  // ---- buildBrevoJsonPayload ----

  /** The literal pieces of the request body's format string, each piece
      starting right after the closing quote of a `%s` field. */
  const OPEN := "{\"sender\":{\"name\":\""
  const AFTER_NAME := ",\"email\":\""
  const AFTER_SENDER := "},\"to\":[{\"email\":\""
  const AFTER_RECIPIENT := "}],\"subject\":\""
  const AFTER_SUBJECT := ",\"htmlContent\":\""
  const CLOSE := "}"

  /** A field value followed by its closing quote and the rest of the body. */
  function Quoted(body: string, tail: string): string
  {
    body + "\"" + tail
  }

  /** `buildBrevoJsonPayload`: the sender name, subject and HTML are escaped;
      the sender and recipient addresses are inserted verbatim. */
  function BrevoJsonPayload(senderName: Option<string>, senderEmail: string,
                            recipientEmail: string, subject: string, htmlContent: string): (r: string)
    ensures StartsWith(r, OPEN + EscapeJson(senderName) + "\"")
  {
    OPEN + Quoted(EscapeJson(senderName),
      AFTER_NAME + Quoted(senderEmail,
        AFTER_SENDER + Quoted(recipientEmail,
          AFTER_RECIPIENT + Quoted(EscapeJson(Some(subject)),
            AFTER_SUBJECT + Quoted(EscapeJson(Some(htmlContent)), CLOSE)))))
  }

  /** The fields of a Brevo send request. */
  datatype Mail = Mail(senderName: string, senderEmail: string, recipientEmail: string,
                       subject: string, htmlContent: string)

  /** What follows the literal `lit` at the start of `s`. */
  function Expect(s: string, lit: string): (r: Option<string>)
    ensures r.Some? <==> StartsWith(s, lit)
  {
    if |lit| <= |s| && s[..|lit|] == lit then Some(s[|lit|..]) else None
  }

  /** Reads one string field and the literal that follows it. */
  function Field(s: string, next: string): Option<(string, string)>
  {
    match ReadString(s)
    case None => None
    case Some(p) =>
      match Expect(p.1, next)
      case None => None
      case Some(rest) => Some((p.0, rest))
  }

  /** A reader for request bodies laid out like `buildBrevoJsonPayload`'s. */
  function ParsePayload(p: string): Option<Mail>
  {
    match Expect(p, OPEN)
    case None => None
    case Some(a) =>
      match Field(a, AFTER_NAME)
      case None => None
      case Some(f1) =>
        match Field(f1.1, AFTER_SENDER)
        case None => None
        case Some(f2) =>
          match Field(f2.1, AFTER_RECIPIENT)
          case None => None
          case Some(f3) =>
            match Field(f3.1, AFTER_SUBJECT)
            case None => None
            case Some(f4) =>
              match Field(f4.1, CLOSE)
              case None => None
              case Some(f5) =>
                if f5.1 == "" then Some(Mail(f1.0, f2.0, f3.0, f4.0, f5.0)) else None
  }

  lemma ExpectLiteral(lit: string, t: string)
    ensures Expect(lit + t, lit) == Some(t)
  {
    assert (lit + t)[..|lit|] == lit;
    assert (lit + t)[|lit|..] == t;
  }

  lemma FieldEscaped(v: string, next: string, t: string)
    ensures Field(Quoted(Escaped(v), next + t), next) == Some((v, t))
  {
    ReadEscaped(v, next + t);
    ExpectLiteral(next, t);
  }

  lemma FieldVerbatim(w: string, next: string, t: string)
    requires forall i :: 0 <= i < |w| ==> w[i] != '"' && w[i] != '\\'
    ensures Field(Quoted(w, next + t), next) == Some((w, t))
  {
    ReadVerbatim(w, next + t);
    ExpectLiteral(next, t);
  }

  /** An address with no quote and no backslash, which the body can carry
      unescaped. */
  predicate JsonSafe(w: string)
  {
    forall i :: 0 <= i < |w| ==> w[i] != '"' && w[i] != '\\'
  }

  /** Round trip of the request body: a reader gets back every field
      (a null sender name as ""), provided the two addresses, which are not
      escaped, hold no quote and no backslash. */
  lemma PayloadRoundTrip(senderName: Option<string>, senderEmail: string,
                         recipientEmail: string, subject: string, htmlContent: string)
    requires JsonSafe(senderEmail) && JsonSafe(recipientEmail)
    ensures ParsePayload(BrevoJsonPayload(senderName, senderEmail, recipientEmail, subject, htmlContent))
            == Some(Mail(if senderName.None? then "" else senderName.value,
                         senderEmail, recipientEmail, subject, htmlContent))
  {
    var name := if senderName.None? then "" else senderName.value;
    assert EscapeJson(senderName) == Escaped(name) by {
      if senderName.Some? {
        EscapeJsonIsPerChar(name);
      }
    }
    EscapeJsonIsPerChar(subject);
    EscapeJsonIsPerChar(htmlContent);
    var t5 := Quoted(Escaped(htmlContent), CLOSE + "");
    assert CLOSE + "" == CLOSE;
    var t4 := Quoted(Escaped(subject), AFTER_SUBJECT + t5);
    var t3 := Quoted(recipientEmail, AFTER_RECIPIENT + t4);
    var t2 := Quoted(senderEmail, AFTER_SENDER + t3);
    var t1 := Quoted(Escaped(name), AFTER_NAME + t2);
    ExpectLiteral(OPEN, t1);
    FieldEscaped(name, AFTER_NAME, t2);
    FieldVerbatim(senderEmail, AFTER_SENDER, t3);
    FieldVerbatim(recipientEmail, AFTER_RECIPIENT, t4);
    FieldEscaped(subject, AFTER_SUBJECT, t5);
    FieldEscaped(htmlContent, CLOSE, "");
  }

  /** A recipient address holding a quote is not escaped, so the body no
      longer reads back: the reader stops the address at the quote. */
  lemma RecipientNotEscaped(senderName: Option<string>, senderEmail: string, subject: string, htmlContent: string)
    requires JsonSafe(senderEmail)
    ensures ParsePayload(BrevoJsonPayload(senderName, senderEmail, "a\"b", subject, htmlContent)).None?
  {
    var name := if senderName.None? then "" else senderName.value;
    assert EscapeJson(senderName) == Escaped(name) by {
      if senderName.Some? {
        EscapeJsonIsPerChar(name);
      }
    }
    var t4 := Quoted(EscapeJson(Some(subject)), AFTER_SUBJECT + Quoted(EscapeJson(Some(htmlContent)), CLOSE));
    var t3 := Quoted("a\"b", AFTER_RECIPIENT + t4);
    var t2 := Quoted(senderEmail, AFTER_SENDER + t3);
    var t1 := Quoted(Escaped(name), AFTER_NAME + t2);
    ExpectLiteral(OPEN, t1);
    FieldEscaped(name, AFTER_NAME, t2);
    FieldVerbatim(senderEmail, AFTER_SENDER, t3);
    FieldStopsAtQuote(t4);
  }

  lemma FieldStopsAtQuote(t: string)
    ensures Field(Quoted("a\"b", AFTER_RECIPIENT + t), AFTER_RECIPIENT).None?
  {
    var after := "b\"" + AFTER_RECIPIENT + t;
    assert Quoted("a\"b", AFTER_RECIPIENT + t) == "a" + "\"" + after;
    ReadVerbatim("a", after);
    assert after[0] == 'b' && AFTER_RECIPIENT[0] == '}';
  }

  // ---- the OTP e-mail ----

  const OTP_SUBJECT := "Your SplitWith OTP Code"

  /** The page up to the code. */
  const OTP_HTML_HEAD :=
    "<!DOCTYPE html>"
    + "<html lang=\"en\">"
    + "<head>"
    + "    <meta charset=\"UTF-8\">"
    + "    <meta name=\"viewport\"" + " content=\"width=device-width," + " initial-scale=1.0\">"
    + "    <title>Your OTP Code</title>"
    + "</head>"
    + "<body style=\"margin: 0; padding: 0;" + " font-family: Arial, sans-serif;" + " background-color: #f7f9fc;\">"
    + "    <table width=\"100%\" cellpadding=\"0\"" + " cellspacing=\"0\"" + " style=\"background-color: #f7f9fc;" + " padding: 40px 0;\">"
    + "        <tr>"
    + "            <td align=\"center\">"
    + "                <table width=\"600\"" + " cellpadding=\"0\" cellspacing=\"0\"" + " style=\"background-color: #ffffff;" + " border-radius: 12px; box-shadow: 0 2px" + " 8px rgba(0,0,0,0.1);\">"
    + "                    <!-- Header -->"
    + "                    <tr>"
    + "                        <td" + " style=\"padding: 40px 40px 20px;" + " text-align: center; border-bottom: 1px" + " solid #e2e8f0;\">"
    + "                            <h1" + " style=\"margin: 0; font-size: 28px;" + " font-weight: bold; color:" + " #1a202c;\">SplitWith</h1>"
    + "                            <p" + " style=\"margin: 8px 0 0; font-size:" + " 14px; color: #718096;\">Split trip" + " expenses with friends</p>"
    + "                        </td>"
    + "                    </tr>"
    + "                    <!-- Content -->"
    + "                    <tr>"
    + "                        <td" + " style=\"padding: 40px;\">"
    + "                            <h2" + " style=\"margin: 0 0 16px; font-size:" + " 20px; font-weight: 600; color:" + " #1a202c;\">Your OTP Code</h2>"
    + "                            <p" + " style=\"margin: 0 0 24px; font-size:" + " 14px; color: #4a5568; line-height:" + " 1.6;\">"
    + "                                Use the" + " following one-time password (OTP) to" + " complete your authentication:"
    + "                            </p>"
    + "                            <!-- OTP" + " Code Box -->"
    + "                            <table" + " width=\"100%\" cellpadding=\"0\"" + " cellspacing=\"0\">"
    + "                                <tr>"
    + "                                    <td" + " align=\"center\" style=\"padding: 20px;" + " background-color: #edf2f7;" + " border-radius: 8px;\">"
    + "                                       " + " <span style=\"font-size: 32px;" + " font-weight: bold; letter-spacing:" + " 8px; color: #2d3748; font-family:" + " monospace;\">"

  /** The page after the code. */
  const OTP_HTML_TAIL :=
    "                                       " + " </span>"
    + "                                   " + " </td>"
    + "                                </tr>"
    + "                            </table>"
    + "                            <p" + " style=\"margin: 24px 0 0; font-size:" + " 13px; color: #718096; line-height:" + " 1.6;\">"
    + "                                \U{23F0}" + " <strong>This code expires in 10" + " minutes.</strong>"
    + "                            </p>"
    + "                            <p" + " style=\"margin: 16px 0 0; font-size:" + " 13px; color: #718096; line-height:" + " 1.6;\">"
    + "                                If you" + " didn't request this code, please" + " ignore this email."
    + "                            </p>"
    + "                        </td>"
    + "                    </tr>"
    + "                    <!-- Footer -->"
    + "                    <tr>"
    + "                        <td" + " style=\"padding: 20px 40px;" + " background-color: #f7fafc; border-top:" + " 1px solid #e2e8f0; border-radius: 0 0" + " 12px 12px;\">"
    + "                            <p" + " style=\"margin: 0; font-size: 12px;" + " color: #a0aec0; text-align: center;\">"
    + "                                \U{A9} 2026" + " SplitWith. All rights reserved."
    + "                            </p>"
    + "                        </td>"
    + "                    </tr>"
    + "                </table>"
    + "            </td>"
    + "        </tr>"
    + "    </table>"
    + "</body>"
    + "</html>"

  /** `buildOtpEmailHtml`: the fixed page with the code inside the code box. */
  function OtpEmailHtml(otpCode: string): (page: string)
    ensures OccursAt(page, otpCode, |OTP_HTML_HEAD|)
  {
    FillCode(OTP_HTML_HEAD, otpCode, OTP_HTML_TAIL)
  }

  /** A page made of a fixed head, the code and a fixed tail: the head comes
      first, the code right after it, the tail last. */
  function FillCode(head: string, code: string, tail: string): (page: string)
    ensures |page| == |head| + |code| + |tail|
    ensures page[..|head|] == head && OccursAt(page, code, |head|) && page[|head| + |code|..] == tail
  {
    var page := head + code + tail;
    assert page[..|head|] == head && page[|head|..|head| + |code|] == code && page[|head| + |code|..] == tail;
    page
  }

  /** For a fixed head and tail, two pages are equal only for equal codes. */
  lemma FillCodeInjective(head: string, tail: string, a: string, b: string)
    requires FillCode(head, a, tail) == FillCode(head, b, tail)
    ensures a == b
  {
    assert |a| == |b|;
  }

  /** The request body of `sendOtpEmail`: the OTP subject and page, sent to
      `recipientEmail` from the configured sender. By `PayloadRoundTrip` it
      reads back with exactly this subject and page. */
  function OtpEmailPayload(senderName: Option<string>, senderEmail: string,
                           recipientEmail: string, otpCode: string): string
  {
    BrevoJsonPayload(senderName, senderEmail, recipientEmail, OTP_SUBJECT, OtpEmailHtml(otpCode))
  }
}
