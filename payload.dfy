/**
 * The settings payload main.go builds from the output size with
 * `fmt.Sprintf`, and its reading side.
 */
module Payload {
  import opened Wrappers
  import opened GoStrconv
  import opened GoStrings
  import opened Cli

  newtype byte = x: int | 0 <= x < 256

  const WidthKey: string := "{'output_width':"
  const HeightKey: string := ",'output_height':"
  const Closing: string := "}"

  predicate IsAscii(s: string) {
    forall i :: 0 <= i < |s| ==> s[i] as int < 128
  }

  /** `[]byte(s)` for an ASCII string: one byte per character, with the same code. */
  function AsciiBytes(s: string): (b: seq<byte>)
    requires IsAscii(s)
    ensures |b| == |s|
    ensures forall i :: 0 <= i < |s| ==> b[i] as int == s[i] as int
  {
    seq(|s|, i requires 0 <= i < |s| => s[i] as int as byte)
  }

  /**
   * The settings payload `{'output_width':W,'output_height':H}`, width first.
   * Its keys are single-quoted, so it is not JSON; it reads back to the same
   * two values; and it is ASCII, so its bytes are its characters.
   */
  function EncodeSettings(width: Int64, height: Int64): (s: string)
    ensures IsAscii(s)
    ensures '"' !in s
    ensures DecodeSettings(s) == Some(Dimensions(width, height))
  {
    var w, h := FormatInt(width), FormatInt(height);
    var s := WidthKey + w + HeightKey + h + Closing;
    LiteralIsAscii(w);
    LiteralIsAscii(h);
    assert IsAscii(s) && '"' !in s by {
      forall i | 0 <= i < |s| ensures s[i] as int < 128 && s[i] != '"' {
        if i < |WidthKey| { }
        else if i < |WidthKey| + |w| { assert s[i] == w[i - |WidthKey|]; }
        else if i < |WidthKey| + |w| + |HeightKey| { }
        else if i < |WidthKey| + |w| + |HeightKey| + |h| { assert s[i] == h[i - |WidthKey| - |w| - |HeightKey|]; }
      }
    }
    DecodeEncoded(width, height);
    s
  }

  /**
   * Reads a settings payload back into its width and height, accepting each
   * number only in the form `%d` writes. It is the inverse of EncodeSettings
   * in both directions (EncodeSettings' ensures and DecodedIsEncoded).
   */
  function DecodeSettings(s: string): Option<Dimensions> {
    if |s| < |WidthKey| + |Closing| || s[..|WidthKey|] != WidthKey || s[|s| - 1..] != Closing then None
    else DecodeSettingsBody(s[|WidthKey|..|s| - 1])
  }

  /** The text between the opening key and the closing brace: `W,'output_height':H`. */
  function DecodeSettingsBody(body: string): Option<Dimensions> {
    if ',' !in body then None
    else
      var i := IndexOf(body, ',');
      var rest := body[i..];
      if |rest| < |HeightKey| || rest[..|HeightKey|] != HeightKey then None
      else
        var wText, hText := body[..i], rest[|HeightKey|..];
        match (ParseInt(wText), ParseInt(hText))
        case (Success(w), Success(h)) =>
          if IsCanonicalLiteral(wText) && IsCanonicalLiteral(hText) then Some(Dimensions(w, h)) else None
        case _ => None
  }

  lemma LiteralIsAscii(s: string)
    requires IsIntLiteral(s)
    ensures forall i :: 0 <= i < |s| ==> s[i] as int < 128 && s[i] != '"' && s[i] != ','
  {
    forall i | 0 <= i < |s| ensures s[i] as int < 128 && s[i] != '"' && s[i] != ',' {
      if i > 0 && !AllDigits(s) { assert s[i] == s[1..][i - 1]; }
    }
  }

  lemma DecodeFrame(body: string)
    ensures DecodeSettings(WidthKey + body + Closing) == DecodeSettingsBody(body)
  {
    var s := WidthKey + body + Closing;
    assert s[..|WidthKey|] == WidthKey;
    assert s[|s| - 1..] == Closing;
    assert s[|WidthKey|..|s| - 1] == body;
  }

  lemma DecodeBody(w: string, h: string)
    requires IsInt64Literal(w) && IsInt64Literal(h)
    requires IsCanonicalLiteral(w) && IsCanonicalLiteral(h)
    ensures DecodeSettingsBody(w + HeightKey + h) == Some(Dimensions(LiteralValue(w), LiteralValue(h)))
  {
    var body := w + HeightKey + h;
    assert body == w + (HeightKey + h);
    LiteralIsAscii(w);
    IndexOfAfter(w, HeightKey + h, ',');
    var rest := body[|w|..];
    assert rest == HeightKey + h;
    assert rest[..|HeightKey|] == HeightKey && rest[|HeightKey|..] == h;
    assert body[..|w|] == w;
  }

  lemma DecodeEncoded(width: Int64, height: Int64)
    ensures DecodeSettings(WidthKey + FormatInt(width) + HeightKey + FormatInt(height) + Closing)
         == Some(Dimensions(width, height))
  {
    var w, h := FormatInt(width), FormatInt(height);
    assert WidthKey + w + HeightKey + h + Closing == WidthKey + (w + HeightKey + h) + Closing;
    DecodeFrame(w + HeightKey + h);
    DecodeBody(w, h);
  }

  /** Every payload the decoder accepts is the one EncodeSettings writes for its values. */
  lemma DecodedIsEncoded(s: string)
    requires DecodeSettings(s).Some?
    ensures s == EncodeSettings(DecodeSettings(s).value.width, DecodeSettings(s).value.height)
  {
    var body := DecodedFrame(s);
    var d := DecodeSettingsBody(body).value;
    DecodedBodyIsEncoded(body);
    var w, h := FormatInt(d.width), FormatInt(d.height);
    Regroup(WidthKey, w, HeightKey, h, Closing);
    EncodeSettingsText(d.width, d.height);
  }

  lemma Regroup(a: string, b: string, c: string, d: string, e: string)
    ensures a + (b + c + d) + e == a + b + c + d + e
  {
  }

  lemma EncodeSettingsText(width: Int64, height: Int64)
    ensures EncodeSettings(width, height) == WidthKey + FormatInt(width) + HeightKey + FormatInt(height) + Closing
  {
  }

  lemma DecodedFrame(s: string) returns (body: string)
    requires DecodeSettings(s).Some?
    ensures s == WidthKey + body + Closing
    ensures DecodeSettingsBody(body) == DecodeSettings(s)
  {
    body := s[|WidthKey|..|s| - 1];
    assert s[..|WidthKey|] == WidthKey && s[|s| - 1..] == Closing;
    assert s == s[..|WidthKey|] + body + s[|s| - 1..];
  }

  lemma DecodedBodyIsEncoded(body: string)
    requires DecodeSettingsBody(body).Some?
    ensures body == FormatInt(DecodeSettingsBody(body).value.width) + HeightKey
                    + FormatInt(DecodeSettingsBody(body).value.height)
  {
    var i := IndexOf(body, ',');
    var rest := body[i..];
    var wText, hText := body[..i], rest[|HeightKey|..];
    assert rest == rest[..|HeightKey|] + hText;
    assert body == wText + rest;
    CanonicalLiteralIsFormatInt(wText);
    CanonicalLiteralIsFormatInt(hText);
  }

  /** Two size pairs give the same payload only when they are the same pair. */
  lemma EncodeSettingsInjective(w1: Int64, h1: Int64, w2: Int64, h2: Int64)
    requires EncodeSettings(w1, h1) == EncodeSettings(w2, h2)
    ensures w1 == w2 && h1 == h2
  {
  }

  /** The payload for the default size "200x200". */
  lemma DefaultSettingsPayload()
    ensures EncodeSettings(200, 200) == "{'output_width':200,'output_height':200}"
  {
    EncodeSettingsText(200, 200);
    FormatTwoHundred();
    TwoHundredPayloadText();
  }

  lemma TwoHundredPayloadText()
    ensures WidthKey + "200" + HeightKey + "200" + Closing == "{'output_width':200,'output_height':200}"
  {
  }

  lemma FormatTwoHundred()
    ensures FormatInt(200) == "200"
  {
    assert FormatNat(2) == "2";
    assert FormatNat(20) == "20";
    assert FormatNat(200) == "200";
  }
}
