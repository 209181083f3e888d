/**
 * The MJPEG side of the server: the latest-frame slot that the camera publishes into,
 * the bytes one streaming session writes per tick, and the response headers of a stream.
 * A part parser is the partner of the part writer: the body of a session parses back to
 * exactly the frames the session observed.
 */
module MjpegServer {
  import opened Wrappers
  import opened Text
  import Numerals

  /** A JPEG image as the camera delivers it. */
  type Frame = seq<byte>

  datatype Header = Header(name: string, value: string)

  const MJPEG_CONTENT_TYPE: string := "multipart/x-mixed-replace; boundary=--BOUNDARY"

  const CRLF: seq<byte> := Ascii("\r\n")
  const BOUNDARY_LINE: seq<byte> := Ascii("--BOUNDARY\r\n")
  const CONTENT_TYPE_LINE: seq<byte> := Ascii("Content-Type: image/jpeg\r\n")
  const CONTENT_LENGTH_KEY: seq<byte> := Ascii("Content-Length: ")

  /** Everything of a part that comes before the decimal length. */
  const PART_HEAD: seq<byte> := BOUNDARY_LINE + CONTENT_TYPE_LINE + CONTENT_LENGTH_KEY

  /** The Content-Length header of a part of `n` payload bytes, followed by the blank line. */
  function ContentLengthLine(n: nat): (line: seq<byte>)
    ensures line == CONTENT_LENGTH_KEY + Ascii(Numerals.Decimal(n)) + CRLF + CRLF
  {
    var digits := Numerals.Decimal(n);
    assert IsAscii(digits);
    AsciiAppend("Content-Length: ", digits);
    AsciiAppend("Content-Length: " + digits, "\r\n\r\n");
    AsciiAppend("\r\n", "\r\n");
    Ascii("Content-Length: " + digits + "\r\n\r\n")
  }

  /** The five writes of one tick that found frame `f` in the slot. */
  function Part(f: Frame): seq<byte> {
    BOUNDARY_LINE + CONTENT_TYPE_LINE + ContentLengthLine(|f|) + f + CRLF
  }

  /** What one tick writes when it reads `observed` from the slot: nothing for `null`. */
  function TickOutput(observed: Option<Frame>): seq<byte> {
    match observed
    case None => []
    case Some(f) => Part(f)
  }

  /** What a session writes over successive ticks that read `observed` from the slot. */
  function Body(observed: seq<Option<Frame>>): seq<byte> {
    if observed == [] then [] else TickOutput(observed[0]) + Body(observed[1..])
  }

  /** The non-null observations, in order. */
  function FramesOf(observed: seq<Option<Frame>>): seq<Frame> {
    if observed == [] then []
    else (if observed[0].Some? then [observed[0].value] else []) + FramesOf(observed[1..])
  }

  /** The parts of `frames`, back to back. */
  function Parts(frames: seq<Frame>): seq<byte> {
    if frames == [] then [] else Part(frames[0]) + Parts(frames[1..])
  }

  // ---- the latest-frame slot ----

  class MjpegServer {
    /** The most recently published frame, or `null` before the first publish. */
    var currentFrame: Option<Frame>

    constructor ()
      ensures currentFrame == None
    {
      currentFrame := None;
    }

    /**
     * Replaces whatever the slot held; nothing is queued. The source stores the caller's array
     * without copying it; a frame here is a value, so later writes to that array are not modelled.
     */
    method PublishFrame(jpegData: Frame)
      modifies this
      ensures currentFrame == Some(jpegData)
    {
      currentFrame := Some(jpegData);
    }

    /** One read of the slot by a session; it changes nothing. */
    method CurrentFrame() returns (frame: Option<Frame>)
      ensures frame == currentFrame
    {
      frame := currentFrame;
    }

    /**
     * One streaming response: the five headers, then one tick per element of `observed`
     * (the values successive reads of the slot returned), each writing the part of the
     * frame it saw or nothing at all.
     */
    method RespondMjpegStream(observed: seq<Option<Frame>>) returns (headers: seq<Header>, body: seq<byte>)
      ensures headers == [Header("Content-Type", MJPEG_CONTENT_TYPE),
                          Header("Connection", "keep-alive"),
                          Header("Cache-Control", "no-cache, no-store, must-revalidate"),
                          Header("Pragma", "no-cache"),
                          Header("Expires", "0")]
      ensures body == Body(observed)
    {
      headers := [];
      headers := headers + [Header("Content-Type", MJPEG_CONTENT_TYPE)];
      headers := headers + [Header("Connection", "keep-alive")];
      headers := headers + [Header("Cache-Control", "no-cache, no-store, must-revalidate")];
      headers := headers + [Header("Pragma", "no-cache")];
      headers := headers + [Header("Expires", "0")];

      body := [];
      var i := 0;
      while i < |observed|
        invariant 0 <= i <= |observed|
        invariant body == Body(observed[..i])
      {
        var frame := observed[i];
        ghost var before := body;
        if frame.Some? {
          var f := frame.value;
          body := body + BOUNDARY_LINE;
          body := body + CONTENT_TYPE_LINE;
          body := body + ContentLengthLine(|f|);
          body := body + f;
          body := body + CRLF;
          Associate5(before, BOUNDARY_LINE, CONTENT_TYPE_LINE, ContentLengthLine(|f|), f, CRLF);
        }
        BodyAppend(observed[..i], frame);
        assert observed[..i + 1] == observed[..i] + [frame];
        i := i + 1;
      }
      assert observed[..|observed|] == observed;
    }
  }

  // ---- the body of a session ----

  lemma {:induction false} BodyAppend(observed: seq<Option<Frame>>, o: Option<Frame>)
    ensures Body(observed + [o]) == Body(observed) + TickOutput(o)
    decreases |observed|
  {
    if observed == [] {
      assert [o][1..] == [];
      assert Body([o]) == TickOutput(o) + Body([]);
      assert observed + [o] == [o];
    } else {
      assert (observed + [o])[1..] == observed[1..] + [o];
      BodyAppend(observed[1..], o);
      assert (observed + [o])[0] == observed[0];
      Associate(TickOutput(observed[0]), Body(observed[1..]), TickOutput(o));
    }
  }

  /** The body is the parts of the non-null observations, in observation order. */
  lemma {:induction false} BodyIsParts(observed: seq<Option<Frame>>)
    ensures Body(observed) == Parts(FramesOf(observed))
    decreases |observed|
  {
    if observed != [] {
      BodyIsParts(observed[1..]);
      if observed[0].Some? {
        var fs := FramesOf(observed[1..]);
        assert ([observed[0].value] + fs)[1..] == fs;
      } else {
        assert FramesOf(observed) == FramesOf(observed[1..]);
      }
    }
  }

  /** Ticks that all read `null` write nothing. */
  lemma {:induction false} EmptySlotWritesNothing(k: nat)
    ensures Body(seq(k, _ => None)) == []
  {
    if k > 0 {
      var none: Option<Frame> := None;
      assert seq(k, _ => none)[1..] == seq(k - 1, _ => none);
      EmptySlotWritesNothing(k - 1);
    }
  }

  /** A slot that keeps frame `f` is written in full on every tick. */
  lemma {:induction false} UnchangedSlotRepeatsFrame(f: Frame, k: nat)
    ensures Body(seq(k, _ => Some(f))) == Parts(seq(k, _ => f))
  {
    if k > 0 {
      assert seq(k, _ => Some(f))[1..] == seq(k - 1, _ => Some(f));
      assert seq(k, _ => f)[1..] == seq(k - 1, _ => f);
      UnchangedSlotRepeatsFrame(f, k - 1);
    }
  }

  // ---- reading parts back ----

  /** The ASCII codes of '0' to '9'. */
  predicate IsDigitByte(b: byte) {
    48 <= b <= 57
  }

  /** The length of the run of decimal digits at the front of `s`. */
  function DigitRun(s: seq<byte>): (k: nat)
    ensures k <= |s|
    ensures forall i :: 0 <= i < k ==> IsDigitByte(s[i])
    ensures k < |s| ==> !IsDigitByte(s[k])
  {
    if s == [] || !IsDigitByte(s[0]) then 0 else 1 + DigitRun(s[1..])
  }

  function DigitValues(s: seq<byte>): (ds: seq<nat>)
    requires forall i :: 0 <= i < |s| ==> IsDigitByte(s[i])
    ensures |ds| == |s| && Numerals.AllBelow(ds, 10)
  {
    seq(|s|, i requires 0 <= i < |s| && IsDigitByte(s[i]) => s[i] as int - 48)
  }

  /**
   * Reads one part from the front of `s`: the fixed header lines, a Content-Length without
   * leading zeros, the blank line, that many payload bytes and the closing CRLF. Returns the
   * payload and what follows the part.
   */
  function ParsePart(s: seq<byte>): (r: Option<(Frame, seq<byte>)>)
    ensures r.Some? ==> |r.value.1| < |s|
  {
    if HasPrefix(s, PART_HEAD) then ParseLength(s[|PART_HEAD|..]) else None
  }

  /** Reads the decimal Content-Length value, then the payload it announces. */
  function ParseLength(t: seq<byte>): (r: Option<(Frame, seq<byte>)>)
    ensures r.Some? ==> |r.value.1| < |t|
  {
    var k := DigitRun(t);
    if k == 0 || (k > 1 && t[0] == '0' as int) then None
    else ParsePayload(Numerals.Value(DigitValues(t[..k]), 10), t[k..])
  }

  /** Reads the blank line, `n` payload bytes and the closing CRLF. */
  function ParsePayload(n: nat, u: seq<byte>): (r: Option<(Frame, seq<byte>)>)
    ensures r.Some? ==> |r.value.0| == n && |r.value.1| + n + 6 == |u|
  {
    if |u| < n + 6 || u[..4] != CRLF + CRLF || u[n + 4..n + 6] != CRLF then None
    else Some((u[4..n + 4], u[n + 6..]))
  }

  /** Reads a body made of whole parts only. */
  function ParseParts(s: seq<byte>): (r: Option<seq<Frame>>)
    decreases |s|
  {
    if s == [] then Some([])
    else
      match ParsePart(s)
      case None => None
      case Some((f, rest)) =>
        match ParseParts(rest)
        case None => None
        case Some(fs) => Some([f] + fs)
  }

  /** The decimal digits of `n`, as bytes, are a digit run whose value is `n`. */
  lemma DecimalBytes(n: nat)
    ensures var d := Ascii(Numerals.Decimal(n));
      && |d| >= 1 && (forall i :: 0 <= i < |d| ==> IsDigitByte(d[i]))
      && (|d| > 1 ==> d[0] != '0' as int)
      && DigitValues(d) == Numerals.Digits(n, 10)
      && Numerals.Value(DigitValues(d), 10) == n
  {
    var ds := Numerals.Digits(n, 10);
    var d := Ascii(Numerals.Decimal(n));
    forall i | 0 <= i < |d| ensures DigitValues(d)[i] == ds[i] {
      assert d[i] == Numerals.DigitChar(ds[i]) as int;
    }
    Numerals.ValueOfDigits(n, 10);
  }

  lemma {:induction false} DigitRunOf(d: seq<byte>, tail: seq<byte>)
    requires forall i :: 0 <= i < |d| ==> IsDigitByte(d[i])
    requires tail != [] && !IsDigitByte(tail[0])
    ensures DigitRun(d + tail) == |d|
    decreases |d|
  {
    if d == [] {
      assert d + tail == tail;
    } else {
      assert (d + tail)[1..] == d[1..] + tail;
      DigitRunOf(d[1..], tail);
    }
  }

  /** A part is the fixed head, the decimal length, a blank line, the frame and CRLF. */
  lemma PartLayout(f: Frame)
    ensures Part(f) == PART_HEAD + Ascii(Numerals.Decimal(|f|)) + (CRLF + CRLF + f + CRLF)
  {
    var d := Ascii(Numerals.Decimal(|f|));
    calc {
      Part(f);
      BOUNDARY_LINE + CONTENT_TYPE_LINE + ContentLengthLine(|f|) + f + CRLF;
      BOUNDARY_LINE + CONTENT_TYPE_LINE + (CONTENT_LENGTH_KEY + d + CRLF + CRLF) + f + CRLF;
      PART_HEAD + d + (CRLF + CRLF + f + CRLF);
    }
  }

  lemma PayloadRoundTrip(f: Frame, rest: seq<byte>)
    ensures ParsePayload(|f|, CRLF + CRLF + f + CRLF + rest) == Some((f, rest))
  {
    var u := CRLF + CRLF + f + CRLF + rest;
    var n := |f|;
    assert u[..4] == CRLF + CRLF;
    assert u[4..n + 4] == f;
    assert u[n + 4..n + 6] == CRLF;
    assert u[n + 6..] == rest;
  }

  lemma PayloadParseExact(n: nat, u: seq<byte>, f: Frame, rest: seq<byte>)
    requires ParsePayload(n, u) == Some((f, rest))
    ensures |f| == n && u == CRLF + CRLF + f + CRLF + rest
  {
    assert u == u[..4] + u[4..n + 4] + u[n + 4..n + 6] + u[n + 6..];
  }

  lemma LengthRoundTrip(n: nat, tail: seq<byte>)
    requires tail != [] && tail[0] == '\r' as int
    ensures ParseLength(Ascii(Numerals.Decimal(n)) + tail) == ParsePayload(n, tail)
  {
    var d := Ascii(Numerals.Decimal(n));
    DecimalBytes(n);
    var t := d + tail;
    DigitRunOf(d, tail);
    assert t[..|d|] == d;
    assert t[|d|..] == tail;
  }

  /** A digit run without a leading zero is the decimal numeral of its own value. */
  lemma CanonicalRunIsDecimal(r: seq<byte>)
    requires |r| >= 1 && (forall i :: 0 <= i < |r| ==> IsDigitByte(r[i]))
    requires |r| > 1 ==> r[0] != '0' as int
    ensures r == Ascii(Numerals.Decimal(Numerals.Value(DigitValues(r), 10)))
  {
    var ds := DigitValues(r);
    var n := Numerals.Value(ds, 10);
    assert Numerals.Canonical(ds);
    Numerals.DigitsOfValue(ds, 10);
    DecimalBytes(n);
    var d := Ascii(Numerals.Decimal(n));
    assert |d| == |r|;
    forall i | 0 <= i < |r| ensures d[i] == r[i] {
      assert DigitValues(d)[i] == ds[i];
    }
  }

  lemma LengthParseExact(t: seq<byte>, f: Frame, rest: seq<byte>)
    requires ParseLength(t) == Some((f, rest))
    ensures t == Ascii(Numerals.Decimal(|f|)) + t[DigitRun(t)..]
    ensures ParsePayload(|f|, t[DigitRun(t)..]) == Some((f, rest))
  {
    var k := DigitRun(t);
    var r := t[..k];
    CanonicalRunIsDecimal(r);
    assert t == r + t[k..];
  }

  /** A part reads back as its frame, leaving what follows it untouched. */
  lemma PartRoundTrip(f: Frame, rest: seq<byte>)
    ensures ParsePart(Part(f) + rest) == Some((f, rest))
  {
    var d := Ascii(Numerals.Decimal(|f|));
    var tail := CRLF + CRLF + f + CRLF + rest;
    var s := Part(f) + rest;
    PartLayout(f);
    assert s == PART_HEAD + (d + tail);
    assert s[..|PART_HEAD|] == PART_HEAD;
    assert s[|PART_HEAD|..] == d + tail;
    LengthRoundTrip(|f|, tail);
    PayloadRoundTrip(f, rest);
  }

  /** Whatever a part parse accepts is exactly one part followed by the rest. */
  lemma PartParseExact(s: seq<byte>, f: Frame, rest: seq<byte>)
    requires ParsePart(s) == Some((f, rest))
    ensures s == Part(f) + rest
  {
    var t := s[|PART_HEAD|..];
    PrefixSplit(s, PART_HEAD);
    LengthParseExact(t, f, rest);
    var u := t[DigitRun(t)..];
    PayloadParseExact(|f|, u, f, rest);
    var d := Ascii(Numerals.Decimal(|f|));
    var w := CRLF + CRLF + f + CRLF;
    PartLayout(f);
    Associate(PART_HEAD + d, w, rest);
    Associate(PART_HEAD, d, w + rest);
  }

  lemma {:induction false} PartsRoundTrip(frames: seq<Frame>)
    ensures ParseParts(Parts(frames)) == Some(frames)
    decreases |frames|
  {
    if frames != [] {
      PartsRoundTrip(frames[1..]);
      FirstPartRoundTrip(frames);
      ParsePartsCons(Parts(frames), frames[0], Parts(frames[1..]), frames[1..]);
      assert [frames[0]] + frames[1..] == frames;
    }
  }

  lemma FirstPartRoundTrip(frames: seq<Frame>)
    requires frames != []
    ensures ParsePart(Parts(frames)) == Some((frames[0], Parts(frames[1..])))
  {
    PartRoundTrip(frames[0], Parts(frames[1..]));
  }

  /** One part, then whole parts, reads as the part's frame followed by theirs. */
  lemma ParsePartsCons(s: seq<byte>, f: Frame, rest: seq<byte>, fs: seq<Frame>)
    requires ParsePart(s) == Some((f, rest)) && ParseParts(rest) == Some(fs)
    ensures ParseParts(s) == Some([f] + fs)
  {
  }

  lemma {:induction false} PartsParseExact(s: seq<byte>, frames: seq<Frame>)
    requires ParseParts(s) == Some(frames)
    ensures s == Parts(frames)
    decreases |s|
  {
    if s != [] {
      var (f, rest) := ParsePart(s).value;
      PartParseExact(s, f, rest);
      var fs := ParseParts(rest).value;
      PartsParseExact(rest, fs);
      assert frames == [f] + fs;
      assert frames[1..] == fs;
    }
  }

  /**
   * The body of a session reads back as exactly the frames the session found in the slot,
   * in the order it found them, and every body that reads back that way is that body.
   */
  lemma BodyParsesToObservedFrames(observed: seq<Option<Frame>>, s: seq<byte>)
    ensures ParseParts(Body(observed)) == Some(FramesOf(observed))
    ensures ParseParts(s) == Some(FramesOf(observed)) ==> s == Body(observed)
  {
    BodyIsParts(observed);
    PartsRoundTrip(FramesOf(observed));
    if ParseParts(s) == Some(FramesOf(observed)) {
      PartsParseExact(s, FramesOf(observed));
    }
  }

  // ---- the boundary ----

  const BOUNDARY_KEY: string := "multipart/x-mixed-replace; boundary="

  /** The boundary parameter a client reads from the stream's Content-Type. */
  function BoundaryParameter(contentType: string): (r: Option<string>)
    ensures r.Some? ==> contentType == BOUNDARY_KEY + r.value
  {
    if HasPrefix(contentType, BOUNDARY_KEY) then
      assert contentType == contentType[..|BOUNDARY_KEY|] + contentType[|BOUNDARY_KEY|..];
      Some(contentType[|BOUNDARY_KEY|..])
    else None
  }

  /**
   * The declared boundary is "--BOUNDARY", so section 5.1.1 of RFC 2046 puts the delimiter
   * line at "--" + "--BOUNDARY"; every part written starts with "--BOUNDARY" + CRLF instead.
   */
  lemma DelimiterIsNotTheDeclaredBoundary(f: Frame)
    ensures BoundaryParameter(MJPEG_CONTENT_TYPE) == Some("--BOUNDARY")
    ensures HasPrefix(Part(f), Ascii("--BOUNDARY\r\n"))
    ensures !HasPrefix(Part(f), Ascii("--" + "--BOUNDARY"))
  {
    assert MJPEG_CONTENT_TYPE == BOUNDARY_KEY + "--BOUNDARY";
    assert Part(f)[..|BOUNDARY_LINE|] == BOUNDARY_LINE;
    assert Part(f)[2] == 'B' as int;
  }
}
