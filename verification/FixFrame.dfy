/** Framing of a FIX 4.2 byte stream by BodyLength, tag 9 (`FixParser::tryExtractMessage` and the
    reading loop of `EventLoop::handleReadable`). */
module FixFrame {
  import opened Options
  import opened Words
  import opened Text
  import opened Stream

  const SOH: char := '\U{01}'

  predicate SohFree(s: string) { forall i :: 0 <= i < |s| ==> s[i] != SOH }

  /** "10=" + three digits + SOH. */
  const TRAILER_LENGTH: nat := 7

  datatype Header = Header(bodyStart: nat, bodyLength: nat)

  /** What the front of a buffer announces, once tags 8 and 9 have arrived. None while they have
      not, and for ever if they are malformed. */
  function ReadHeader(buf: string): (h: Option<Header>)
    ensures h.Some? ==> h.value.bodyStart <= |buf|
  {
    if |buf| < 2 || buf[..2] != "8=" then None
    else
      var first := Find(buf, SOH, 0);
      if first == |buf| || first + 3 > |buf| || buf[first + 1..first + 3] != "9=" then None
      else
        var second := Find(buf, SOH, first + 3);
        if second == |buf| then None
        else
          var n := Stoul(buf[first + 3..second]);
          if n.None? then None else Some(Header(second + 1, n.value))
  }

  /** The length of the message at the front of a buffer. */
  function FrameLength(buf: string): (n: Option<nat>)
    ensures n.Some? ==> n.value >= TRAILER_LENGTH
  {
    var h := ReadHeader(buf);
    if h.None? then None else Some(h.value.bodyStart + h.value.bodyLength + TRAILER_LENGTH)
  }

  /** The complete message at the front of a buffer, if there is one. */
  function TryExtract(buf: string): (m: Option<string>)
    ensures m.Some? ==> 0 < |m.value| <= |buf| && m.value == buf[..|m.value|]
  {
    var n := FrameLength(buf);
    if n.Some? && n.value <= |buf| then Some(buf[..n.value]) else None
  }

  // ------------------------------------------------------------------ what is a message

  /** The buffer starts with "8=", its first SOH is at `i`, "9=" follows, and the text from there to
      the next SOH, at `k`, reads as the number `n`. */
  ghost predicate Announces(buf: string, i: nat, k: nat, n: nat) {
    && 2 <= i && i + 3 <= k < |buf| && buf[..2] == "8=" && buf[i] == SOH && buf[i + 1..i + 3] == "9=" && buf[k] == SOH
    && (forall j :: 0 <= j < i ==> buf[j] != SOH) && (forall j :: i + 3 <= j < k ==> buf[j] != SOH)
    && Stoul(buf[i + 3..k]) == Some(n)
  }

  lemma HeaderFound(buf: string) returns (i: nat, k: nat)
    requires ReadHeader(buf).Some?
    ensures Announces(buf, i, k, ReadHeader(buf).value.bodyLength) && ReadHeader(buf).value.bodyStart == k + 1
  {
    i := Find(buf, SOH, 0);
    k := Find(buf, SOH, i + 3);
    FindFirst(buf, SOH, 0);
    FindFirst(buf, SOH, i + 3);
    assert buf[..2][0] == buf[0] && buf[..2][1] == buf[1];
  }

  lemma HeaderRead(buf: string, i: nat, k: nat, n: nat)
    requires Announces(buf, i, k, n)
    ensures ReadHeader(buf) == Some(Header(k + 1, n))
  {
    FindIs(buf, SOH, 0, i);
    FindIs(buf, SOH, i + 3, k);
  }

  /** The buffer announces a length, holds that many bytes after the header and seven more, and `m` is
      all of these. */
  ghost predicate Complete(buf: string, m: string, i: nat, k: nat, n: nat) {
    Announces(buf, i, k, n) && k + 8 + n <= |buf| && m == buf[..k + 8 + n]
  }

  /** Every buffer: this is what a complete message at its front is. */
  lemma MessageIff(buf: string, m: string)
    ensures TryExtract(buf) == Some(m) <==> exists i: nat, k: nat, n: nat :: Complete(buf, m, i, k, n)
  {
    if TryExtract(buf) == Some(m) { MessageFound(buf, m); }
    if i: nat, k: nat, n: nat :| Complete(buf, m, i, k, n) { MessageRead(buf, m, i, k, n); }
  }

  lemma MessageRead(buf: string, m: string, i: nat, k: nat, n: nat)
    requires Complete(buf, m, i, k, n)
    ensures TryExtract(buf) == Some(m)
  {
    HeaderRead(buf, i, k, n);
  }

  lemma MessageFound(buf: string, m: string)
    requires TryExtract(buf) == Some(m)
    ensures exists i: nat, k: nat, n: nat :: Complete(buf, m, i, k, n)
  {
    var i, k := HeaderFound(buf);
    assert Complete(buf, m, i, k, ReadHeader(buf).value.bodyLength);
  }

  /** A buffer that does not start with "8=" has no message, whatever arrives later. */
  lemma GarbageStays(buf: string, more: string)
    requires |buf| >= 2 && buf[..2] != "8="
    ensures TryExtract(buf + more).None?
  {
    assert (buf + more)[..2] == buf[..2];
  }

  // ------------------------------------------------------------------ chunking

  lemma FindStable(buf: string, more: string, c: char, i: nat)
    requires i <= |buf| && Find(buf, c, i) < |buf|
    ensures Find(buf + more, c, i) == Find(buf, c, i)
  {
    FindFirst(buf, c, i);
    FindIs(buf + more, c, i, Find(buf, c, i));
  }

  lemma SliceStable(buf: string, more: string, i: nat, k: nat)
    requires i <= k <= |buf|
    ensures (buf + more)[i..k] == buf[i..k]
  {}

  lemma HeaderStable(buf: string, more: string)
    requires ReadHeader(buf).Some?
    ensures ReadHeader(buf + more) == ReadHeader(buf)
  {
    var first := Find(buf, SOH, 0);
    var second := Find(buf, SOH, first + 3);
    FindStable(buf, more, SOH, 0);
    FindStable(buf, more, SOH, first + 3);
    assert (buf + more)[..2] == buf[..2];
    SliceStable(buf, more, first + 1, first + 3);
    SliceStable(buf, more, first + 3, second);
  }

  lemma LengthStable(buf: string, more: string)
    requires FrameLength(buf).Some?
    ensures FrameLength(buf + more) == FrameLength(buf)
  {
    HeaderStable(buf, more);
  }

  /** More bytes never change a message that is already complete. */
  lemma ExtractStable(buf: string, more: string)
    requires TryExtract(buf).Some?
    ensures TryExtract(buf + more) == TryExtract(buf)
  {
    LengthStable(buf, more);
    SliceStable(buf, more, 0, FrameLength(buf).value);
  }

  lemma Recogniser()
    ensures Prefixes(TryExtract) && Stable(TryExtract)
  {
    forall buf, more | TryExtract(buf).Some? ensures TryExtract(buf + more) == TryExtract(buf) {
      ExtractStable(buf, more);
    }
  }

  /** Chunking independence, for every byte stream, well formed or not: however it is cut into
      reads, every extraction loop ends, the messages and the leftover are those of the whole
      stream, and together they are the stream. */
  lemma ChunkingIndependence(chunks: seq<string>)
    ensures Prefixes(TryExtract) && AllEnd(TryExtract, "", chunks)
    ensures Receive(TryExtract, "", chunks) == ExtractAll(TryExtract, Join(chunks))
    ensures
      var z := Receive(TryExtract, "", chunks);
      Join(z.messages) + z.rest == Join(chunks)
  {
    var all := Join(chunks);
    Recogniser();
    Agreement(TryExtract, TryExtract, all);
    AnyChunking(TryExtract, "", chunks);
    assert "" + all == all;
    var k: nat :| TryExtract(Rest(TryExtract, all, k)).None?;
    OutcomeIs(TryExtract, all, k);
    NothingLost(TryExtract, all, k);
  }

  /** Messages that are framed as themselves are received as they were sent. */
  lemma MessagesReceived(messages: seq<string>, chunks: seq<string>)
    requires Join(chunks) == Join(messages)
    requires forall i :: 0 <= i < |messages| ==> TryExtract(messages[i]) == Some(messages[i])
    ensures Names(TryExtract) && AllEnd(TryExtract, "", chunks)
    ensures Receive(TryExtract, "", chunks) == Extracted(messages, "")
  {
    Recogniser();
    OutcomeJoined(TryExtract, messages);
    AnyChunking(TryExtract, "", chunks);
    assert "" + Join(chunks) == Join(chunks);
  }

  // ------------------------------------------------------------------ 64-bit lengths

  /** The length as the code computes it, in 64-bit arithmetic that wraps around. */
  function FrameLength64(buf: string): Option<nat> {
    var n := FrameLength(buf);
    if n.None? then None else Some(n.value % TWO_64)
  }

  /** The message that the code takes off a buffer. It may be empty. */
  function TryExtract64(buf: string): (m: Option<string>)
    ensures m.Some? ==> |m.value| <= |buf| && m.value == buf[..|m.value|]
  {
    var n := FrameLength64(buf);
    if n.Some? && n.value <= |buf| then Some(buf[..n.value]) else None
  }

  lemma ExtractStable64(buf: string, more: string)
    requires TryExtract64(buf).Some?
    ensures TryExtract64(buf + more) == TryExtract64(buf)
  {
    LengthStable(buf, more);
    SliceStable(buf, more, 0, FrameLength64(buf).value);
  }

  lemma Recogniser64()
    ensures Names(TryExtract64) && Stable(TryExtract64) && TryExtract64("").None?
  {
    forall buf, more | TryExtract64(buf).Some? ensures TryExtract64(buf + more) == TryExtract64(buf) {
      ExtractStable64(buf, more);
    }
  }

  /** The length at the front of the buffer wraps around to one that looks complete. */
  predicate Wraps(buf: string) {
    FrameLength(buf).Some? && FrameLength(buf).value >= TWO_64 && FrameLength(buf).value % TWO_64 <= |buf|
  }

  /** For a buffer that fits in memory one call of the code does what the model does exactly when
      the length does not wrap around; if it does, the model sees no message. */
  lemma ModelMatchesCode(buf: string)
    requires |buf| < TWO_64
    ensures TryExtract64(buf) == TryExtract(buf) <==> !Wraps(buf)
    ensures Wraps(buf) ==> TryExtract64(buf).Some? && TryExtract(buf).None?
  {}

  /** The code's extraction loop on any buffer runs for ever exactly when it comes to a header that
      announces a length which is a multiple of 2^64. */
  lemma CodeProgress(buf: string)
    ensures Names(TryExtract64)
    ensures !Ends(TryExtract64, buf) <==>
              exists k: nat :: FrameLength(Rest(TryExtract64, buf, k)).Some?
                               && FrameLength(Rest(TryExtract64, buf, k)).value % TWO_64 == 0
  {
    Recogniser64();
    EndsIff(TryExtract64, buf);
    forall k: nat
      ensures TryExtract64(Rest(TryExtract64, buf, k)) == Some("") <==>
                FrameLength64(Rest(TryExtract64, buf, k)) == Some(0)
    {
      EmptyMessage(Rest(TryExtract64, buf, k));
    }
  }

  lemma EmptyMessage(buf: string)
    ensures TryExtract64(buf) == Some("") <==> FrameLength64(buf) == Some(0)
  {}

  /** Chunking independence of the code itself, for every byte stream and every way of cutting it:
      its loops all end exactly when the loop on the whole stream ends, and then its messages and
      leftover are those of the whole stream. */
  lemma CodeChunking(chunks: seq<string>)
    ensures Names(TryExtract64)
    ensures AllEnd(TryExtract64, "", chunks) <==> Ends(TryExtract64, Join(chunks))
    ensures AllEnd(TryExtract64, "", chunks) ==>
              Receive(TryExtract64, "", chunks) == Outcome(TryExtract64, Join(chunks))
  {
    Recogniser64();
    AnyChunking(TryExtract64, "", chunks);
    assert "" + Join(chunks) == Join(chunks);
  }

  lemma MessagesReceived64(messages: seq<string>, chunks: seq<string>)
    requires Join(chunks) == Join(messages)
    requires forall i :: 0 <= i < |messages| ==> TryExtract64(messages[i]) == Some(messages[i])
    ensures Names(TryExtract64) && AllEnd(TryExtract64, "", chunks)
    ensures Receive(TryExtract64, "", chunks) == Extracted(messages, "")
  {
    Recogniser64();
    OutcomeJoined(TryExtract64, messages);
    CodeChunking(chunks);
  }

  /** On a stream that fits in memory the code ends with the messages and the leftover of the model
      exactly when no header that it comes to wraps around. */
  lemma CodeFramesStream(all: string)
    requires |all| < TWO_64
    ensures Names(TryExtract64) && Prefixes(TryExtract)
    ensures Ends(TryExtract64, all) && Outcome(TryExtract64, all) == ExtractAll(TryExtract, all) <==>
              forall k: nat :: !Wraps(Rest(TryExtract64, all, k))
  {
    Recogniser();
    Recogniser64();
    forall k: nat
      ensures
        var rest := Rest(TryExtract64, all, k);
        && (TryExtract64(rest) == TryExtract(rest) <==> !Wraps(rest))
        && (Wraps(rest) ==> TryExtract64(rest).Some? && TryExtract(rest).None?)
    {
      NothingLost(TryExtract64, all, k);
      ModelMatchesCode(Rest(TryExtract64, all, k));
    }
    if k: nat :| Wraps(Rest(TryExtract64, all, k)) {
      if Ends(TryExtract64, all) { Disagreement(TryExtract64, TryExtract, all, k); }
    } else {
      Agreement(TryExtract64, TryExtract, all);
    }
  }

  /** So the code receives such a stream, in any pieces, as the model does. */
  lemma CodeReceives(chunks: seq<string>)
    requires |Join(chunks)| < TWO_64 && Names(TryExtract64)
    requires forall k: nat :: !Wraps(Rest(TryExtract64, Join(chunks), k))
    ensures AllEnd(TryExtract64, "", chunks)
    ensures Prefixes(TryExtract) && AllEnd(TryExtract, "", chunks)
    ensures Receive(TryExtract64, "", chunks) == Receive(TryExtract, "", chunks)
  {
    ChunkingIndependence(chunks);
    CodeChunking(chunks);
    CodeFramesStream(Join(chunks));
  }

  lemma MinusSixteen()
    ensures Stoul("-16") == Some(TWO_64 - 16)
  {
    assert Decimal(1) == "1";
    assert Decimal(16) == "16";
    ValueDecimal(16);
    MagnitudeNegative("16");
    assert "-" + "16" == "-16";
  }

  /** A stream on which the code's loop does not end. */
  lemma WrappedLengthStalls()
    ensures
      var buf := "8=" + [SOH] + "9=-16" + [SOH];
      && FrameLength(buf) == Some(TWO_64) && TryExtract64(buf) == Some("") && TryExtract(buf) == None
      && Names(TryExtract64) && !Ends(TryExtract64, buf)
  {
    var buf := "8=" + [SOH] + "9=-16" + [SOH];
    FindIs(buf, SOH, 0, 2);
    FindIs(buf, SOH, 5, 8);
    assert buf[..2] == "8=" && buf[3..5] == "9=" && buf[5..8] == "-16";
    MinusSixteen();
    StalledAtOnce(buf);
  }

  lemma StalledAtOnce(buf: string)
    requires FrameLength64(buf) == Some(0)
    ensures Names(TryExtract64) && !Ends(TryExtract64, buf)
  {
    CodeProgress(buf);
    assert Rest(TryExtract64, buf, 0) == buf;
  }

  // ------------------------------------------------------------------ the receive buffer

  class Receiver {
    var buffer: string

    constructor ()
      ensures buffer == ""
    {
      buffer := "";
    }

    method TryExtractMessage() returns (m: Option<string>)
      modifies this
      ensures m == TryExtract64(old(buffer))
      ensures buffer == if m.Some? then old(buffer)[|m.value|..] else old(buffer)
    {
      if |buffer| < 2 || buffer[..2] != "8=" { return None; }
      var firstSoh := Find(buffer, SOH, 0);
      if firstSoh == |buffer| { return None; }
      var tagStart := firstSoh + 1;
      if |buffer| < tagStart + 2 || buffer[tagStart..tagStart + 2] != "9=" { return None; }
      var valStart := tagStart + 2;
      var bodyLenSoh := Find(buffer, SOH, valStart);
      if bodyLenSoh == |buffer| { return None; }
      var bodyLength := Stoul(buffer[valStart..bodyLenSoh]);
      if bodyLength.None? { return None; }
      var total := (bodyLenSoh + 1 + bodyLength.value + TRAILER_LENGTH) % TWO_64;
      if |buffer| < total { return None; }
      m := Some(buffer[..total]);
      buffer := buffer[total..];
    }

    /** One readable event: append what was read and dispatch every complete message. The loop is
        watched for `limit` iterations; if it ends at all, one more than there are bytes is enough. */
    method OnRead(chunk: string, limit: nat) returns (messages: seq<string>, done: bool)
      modifies this
      ensures Names(TryExtract64)
      ensures done ==> Ends(TryExtract64, old(buffer) + chunk)
                       && Extracted(messages, buffer) == Outcome(TryExtract64, old(buffer) + chunk)
      ensures !done ==> Extracted(messages, buffer) == Loop(TryExtract64, old(buffer) + chunk, limit)
      ensures Ends(TryExtract64, old(buffer) + chunk) && limit > |old(buffer) + chunk| ==> done
    {
      Recogniser64();
      buffer := buffer + chunk;
      ghost var all := buffer;
      messages, done := [], false;
      for i := 0 to limit
        invariant Extracting(all, i, messages, buffer)
      {
        Round(all, i, messages, buffer);
        var m := TryExtractMessage();
        if m.None? { return messages, true; }
        messages := messages + [m.value];
      }
    }
  }

  /** After `i` iterations the loop on `all` has taken off `messages` and looks at `buffer`. */
  ghost predicate Extracting(all: string, i: nat, messages: seq<string>, buffer: string)
    requires Names(TryExtract64)
  {
    && Extracted(messages, buffer) == Loop(TryExtract64, all, i)
    && (Ends(TryExtract64, all) ==> i <= |all|)
  }

  lemma Round(all: string, i: nat, messages: seq<string>, buffer: string)
    requires Names(TryExtract64) && Extracting(all, i, messages, buffer)
    ensures
      var m := TryExtract64(buffer);
      if m.None? then Ends(TryExtract64, all) && Extracted(messages, buffer) == Outcome(TryExtract64, all)
      else Extracting(all, i + 1, messages + [m.value], buffer[|m.value|..])
  {
    if TryExtract64(buffer).None? {
      OutcomeIs(TryExtract64, all, i);
    } else {
      LoopNext(TryExtract64, all, i);
      if Ends(TryExtract64, all) { InTime(TryExtract64, all, i); }
    }
  }
}
