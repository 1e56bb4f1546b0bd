/** Cutting messages off a byte stream that arrives in arbitrary pieces, for any way of
    recognising a complete message that bytes still to come cannot change. */
module Stream {
  import opened Options

  /** A recogniser looks at a buffer and may name a prefix of it, possibly empty, as a complete
      message. */
  ghost predicate Names(f: string -> Option<string>) {
    forall buf :: f(buf).Some? ==> |f(buf).value| <= |buf| && f(buf).value == buf[..|f(buf).value|]
  }

  /** It never names the empty prefix. */
  ghost predicate Prefixes(f: string -> Option<string>) {
    Names(f) && forall buf :: f(buf).Some? ==> f(buf).value != ""
  }

  /** More bytes do not change a message that is already complete. */
  ghost predicate Stable(f: string -> Option<string>) {
    forall buf, more {:trigger f(buf + more)} :: f(buf).Some? ==> f(buf + more) == f(buf)
  }

  datatype Extracted = Extracted(messages: seq<string>, rest: string)

  // ------------------------------------------------------------------ the extraction loop

  /** The first `k` iterations of the loop that extracts until nothing complete is left. */
  ghost function Loop(f: string -> Option<string>, buf: string, k: nat): Extracted
    requires Names(f)
    decreases k
  {
    if k == 0 || f(buf).None? then Extracted([], buf) else Cons(f(buf).value, Loop(f, Tail(f, buf), k - 1))
  }

  function Cons(m: string, more: Extracted): Extracted { Extracted([m] + more.messages, more.rest) }

  /** The buffer without the message at its front. */
  ghost function Tail(f: string -> Option<string>, buf: string): (tail: string)
    requires Names(f) && f(buf).Some?
    ensures f(buf).value + tail == buf
  { buf[|f(buf).value|..] }

  /** What the loop looks at in iteration `k`. */
  ghost function Rest(f: string -> Option<string>, buf: string, k: nat): string
    requires Names(f)
  { Loop(f, buf, k).rest }

  /** The loop stops after some number of iterations. */
  ghost predicate Ends(f: string -> Option<string>, buf: string)
    requires Names(f)
  { exists k: nat :: f(Rest(f, buf, k)).None? }

  /** What a loop that ends has extracted and left. */
  ghost function Outcome(f: string -> Option<string>, buf: string): Extracted
    requires Names(f) && Ends(f, buf)
  {
    var k: nat :| f(Rest(f, buf, k)).None?;
    Loop(f, buf, k)
  }

  lemma {:induction false} LoopStopped(f: string -> Option<string>, buf: string, k: nat, j: nat)
    requires Names(f) && f(Rest(f, buf, k)).None? && k <= j
    ensures Loop(f, buf, j) == Loop(f, buf, k)
    decreases k
  {
    if k > 0 && f(buf).Some? { LoopStopped(f, Tail(f, buf), k - 1, j - 1); }
  }

  /** One more iteration. */
  lemma {:induction false} LoopNext(f: string -> Option<string>, buf: string, k: nat)
    requires Names(f) && f(Rest(f, buf, k)).Some?
    ensures
      var now := Loop(f, buf, k);
      Loop(f, buf, k + 1) == Extracted(now.messages + [f(now.rest).value], Tail(f, now.rest))
    decreases k
  {
    var now := Loop(f, buf, k);
    if k > 0 && f(buf).Some? {
      var tail := Tail(f, buf);
      LoopNext(f, tail, k - 1);
      Associative3(f(buf).value, Loop(f, tail, k - 1).messages, f(now.rest).value);
    } else {
      assert Loop(f, Tail(f, buf), 0) == Extracted([], Tail(f, buf));
      assert [f(buf).value] + [] == [] + [f(buf).value];
    }
  }

  lemma Associative3(m: string, messages: seq<string>, last: string)
    ensures [m] + (messages + [last]) == ([m] + messages) + [last]
  {}

  lemma OutcomeIs(f: string -> Option<string>, buf: string, k: nat)
    requires Names(f) && f(Rest(f, buf, k)).None?
    ensures Ends(f, buf) && Outcome(f, buf) == Loop(f, buf, k)
  {
    var i: nat :| f(Rest(f, buf, i)).None? && Outcome(f, buf) == Loop(f, buf, i);
    if i <= k { LoopStopped(f, buf, i, k); } else { LoopStopped(f, buf, k, i); }
  }

  lemma NoMessage(f: string -> Option<string>, buf: string)
    requires Names(f) && f(buf).None?
    ensures Ends(f, buf) && Outcome(f, buf) == Extracted([], buf)
  {
    OutcomeIs(f, buf, 0);
  }

  /** A loop that finds a message goes on with the rest of the buffer. */
  lemma OneMessage(f: string -> Option<string>, buf: string)
    requires Names(f) && f(buf).Some?
    ensures Ends(f, buf) <==> Ends(f, Tail(f, buf))
    ensures Ends(f, buf) ==> Outcome(f, buf) == Cons(f(buf).value, Outcome(f, Tail(f, buf)))
  {
    var tail := Tail(f, buf);
    if k: nat :| f(Rest(f, buf, k)).None? {
      assert Rest(f, buf, k) == Rest(f, tail, k - 1);
      OutcomeIs(f, tail, k - 1);
      OutcomeIs(f, buf, k);
    }
    if k: nat :| f(Rest(f, tail, k)).None? {
      assert Rest(f, buf, k + 1) == Rest(f, tail, k);
    }
  }

  // ------------------------------------------------------------------ when the loop ends

  /** An empty message leaves the buffer as it is, and the loop where it is. */
  lemma {:induction false} Stuck(f: string -> Option<string>, buf: string, k: nat, j: nat)
    requires Names(f) && f(Rest(f, buf, k)) == Some("") && k <= j
    ensures f(Rest(f, buf, j)) == Some("")
    decreases j
  {
    if j > 0 && f(buf).Some? { Stuck(f, Tail(f, buf), if k > 0 then k - 1 else 0, j - 1); }
  }

  /** While no message is empty, every iteration takes a byte away. */
  lemma {:induction false} Shrinks(f: string -> Option<string>, buf: string, k: nat)
    requires Names(f) && f(Rest(f, buf, k)).Some? && forall i: nat :: f(Rest(f, buf, i)) != Some("")
    ensures |Rest(f, buf, k)| + k <= |buf|
    decreases k
  {
    if k > 0 && f(buf).Some? {
      var tail := Tail(f, buf);
      assert f(Rest(f, buf, 0)) != Some("");
      forall i: nat ensures f(Rest(f, tail, i)) != Some("") { assert Rest(f, buf, i + 1) == Rest(f, tail, i); }
      Shrinks(f, tail, k - 1);
    }
  }

  /** The loop runs for ever exactly when it comes to an empty message; otherwise it ends after at
      most as many iterations as there are bytes. */
  lemma EndsIff(f: string -> Option<string>, buf: string)
    requires Names(f)
    ensures !Ends(f, buf) <==> exists k: nat :: f(Rest(f, buf, k)) == Some("")
    ensures Ends(f, buf) ==> f(Rest(f, buf, |buf|)).None?
  {
    if k: nat :| f(Rest(f, buf, k)) == Some("") {
      if i: nat :| f(Rest(f, buf, i)).None? {
        Stuck(f, buf, k, k + i);
        LoopStopped(f, buf, i, k + i);
      }
    } else if f(Rest(f, buf, |buf|)).Some? {
      Shrinks(f, buf, |buf|);
    }
  }

  lemma InTime(f: string -> Option<string>, buf: string, k: nat)
    requires Names(f) && Ends(f, buf) && f(Rest(f, buf, k)).Some?
    ensures k < |buf|
  {
    EndsIff(f, buf);
    if k >= |buf| { LoopStopped(f, buf, |buf|, k); }
  }

  // ------------------------------------------------------------------ a stream in pieces

  function Join(parts: seq<string>): string {
    if parts == [] then "" else parts[0] + Join(parts[1..])
  }

  /** Receiving a stream in chunks, append and extract all there is after each read: every one of
      these loops ends. */
  ghost predicate AllEnd(f: string -> Option<string>, buf: string, chunks: seq<string>)
    requires Names(f)
    decreases |chunks|
  {
    chunks == [] || (Ends(f, buf + chunks[0]) && AllEnd(f, Outcome(f, buf + chunks[0]).rest, chunks[1..]))
  }

  /** What they extract together, and what is left after the last one. */
  ghost function Receive(f: string -> Option<string>, buf: string, chunks: seq<string>): Extracted
    requires Names(f) && AllEnd(f, buf, chunks)
    decreases |chunks|
  {
    if chunks == [] then Extracted([], buf)
    else
      var now := Outcome(f, buf + chunks[0]);
      Then(now, Receive(f, now.rest, chunks[1..]))
  }

  function Then(now: Extracted, later: Extracted): Extracted {
    Extracted(now.messages + later.messages, later.rest)
  }

  lemma TailAppend(f: string -> Option<string>, buf: string, more: string)
    requires Names(f) && Stable(f) && f(buf).Some?
    ensures f(buf + more) == f(buf) && Tail(f, buf + more) == Tail(f, buf) + more
  {}

  lemma {:induction false} LoopAppend(f: string -> Option<string>, buf: string, more: string, k: nat)
    requires Names(f) && Stable(f) && f(Rest(f, buf, k)).Some?
    ensures Rest(f, buf + more, k) == Rest(f, buf, k) + more
    decreases k
  {
    if k > 0 && f(buf).Some? {
      TailAppend(f, buf, more);
      LoopAppend(f, Tail(f, buf), more, k - 1);
    }
  }

  /** A loop that does not end on a buffer does not end when more bytes arrive. */
  lemma StuckAppend(f: string -> Option<string>, buf: string, more: string)
    requires Names(f) && Stable(f) && !Ends(f, buf)
    ensures !Ends(f, buf + more)
  {
    EndsIff(f, buf);
    var k: nat :| f(Rest(f, buf, k)) == Some("");
    LoopAppend(f, buf, more, k);
    EndsIff(f, buf + more);
  }

  /** Extracting before and after more bytes arrive is extracting from all of them. */
  lemma {:induction false} OutcomeAppend(f: string -> Option<string>, buf: string, more: string, k: nat)
    requires Names(f) && Stable(f) && f(Rest(f, buf, k)).None?
    ensures Ends(f, buf)
    ensures Ends(f, buf + more) <==> Ends(f, Outcome(f, buf).rest + more)
    ensures Ends(f, buf + more) ==>
              Outcome(f, buf + more) == Then(Outcome(f, buf), Outcome(f, Outcome(f, buf).rest + more))
    decreases k
  {
    OutcomeIs(f, buf, k);
    if f(buf).None? {
      NoMessage(f, buf);
      if Ends(f, buf + more) { ThenNothing(Outcome(f, buf + more)); }
    } else {
      var tail := Tail(f, buf);
      OneMessage(f, buf);
      TailAppend(f, buf, more);
      OneMessage(f, buf + more);
      OutcomeAppend(f, tail, more, k - 1);
      if Ends(f, buf + more) { ConsThen(f(buf).value, Outcome(f, tail), Outcome(f, Outcome(f, tail).rest + more)); }
    }
  }

  lemma ThenNothing(later: Extracted)
    ensures forall rest :: Then(Extracted([], rest), later) == later
  {
    assert [] + later.messages == later.messages;
  }

  lemma ConsThen(m: string, now: Extracted, later: Extracted)
    ensures Cons(m, Then(now, later)) == Then(Cons(m, now), later)
  {
    assert [m] + (now.messages + later.messages) == ([m] + now.messages) + later.messages;
  }

  lemma {:induction false} NothingLeft(f: string -> Option<string>, buf: string)
    requires Names(f) && Ends(f, buf)
    ensures f(Outcome(f, buf).rest).None?
  {
    var k: nat :| f(Rest(f, buf, k)).None?;
    OutcomeIs(f, buf, k);
  }

  /** However the stream is cut into reads: all loops end exactly when the loop on the whole stream
      ends, and then messages and leftover are those of the whole. */
  lemma {:induction false} AnyChunking(f: string -> Option<string>, buf: string, chunks: seq<string>)
    requires Names(f) && Stable(f) && f(buf).None?
    ensures AllEnd(f, buf, chunks) <==> Ends(f, buf + Join(chunks))
    ensures AllEnd(f, buf, chunks) ==> Receive(f, buf, chunks) == Outcome(f, buf + Join(chunks))
    decreases |chunks|
  {
    if chunks == [] {
      assert buf + "" == buf;
      NoMessage(f, buf);
    } else {
      var now := buf + chunks[0];
      Associative(buf, chunks[0], Join(chunks[1..]));
      if Ends(f, now) {
        NothingLeft(f, now);
        AnyChunking(f, Outcome(f, now).rest, chunks[1..]);
        var k: nat :| f(Rest(f, now, k)).None?;
        OutcomeAppend(f, now, Join(chunks[1..]), k);
      } else {
        StuckAppend(f, now, Join(chunks[1..]));
      }
    }
  }

  lemma Associative(a: string, b: string, c: string)
    ensures (a + b) + c == a + (b + c)
  {}

  /** Nothing is lost or invented: messages and leftover make up the stream, at every moment. */
  lemma {:induction false} NothingLost(f: string -> Option<string>, buf: string, k: nat)
    requires Names(f)
    ensures Join(Loop(f, buf, k).messages) + Loop(f, buf, k).rest == buf
    decreases k
  {
    if k > 0 && f(buf).Some? {
      var m, tail := f(buf).value, Tail(f, buf);
      NothingLost(f, tail, k - 1);
      var more := Loop(f, tail, k - 1);
      JoinCons(m, more.messages);
      Associative(m, Join(more.messages), more.rest);
    }
  }

  lemma JoinCons(x: string, xs: seq<string>)
    ensures Join([x] + xs) == x + Join(xs)
  {
    assert ([x] + xs)[1..] == xs;
  }

  /** A stream made of messages that are recognised on their own splits into just these. */
  lemma {:induction false} OutcomeJoined(f: string -> Option<string>, messages: seq<string>)
    requires Names(f) && Stable(f) && f("").None?
    requires forall i :: 0 <= i < |messages| ==> f(messages[i]) == Some(messages[i])
    ensures Ends(f, Join(messages)) && Outcome(f, Join(messages)) == Extracted(messages, "")
    decreases |messages|
  {
    if messages == [] {
      NoMessage(f, "");
    } else {
      var m, others := messages[0], messages[1..];
      assert f(m + Join(others)) == f(m);
      assert Tail(f, Join(messages)) == Join(others);
      OutcomeJoined(f, others);
      OneMessage(f, Join(messages));
      assert [m] + others == messages;
    }
  }

  // ------------------------------------------------------------------ without empty messages

  /** Extract until nothing complete is left. Every message takes at least one byte away. */
  ghost function ExtractAll(f: string -> Option<string>, buf: string): Extracted
    requires Prefixes(f)
    decreases |buf|
  {
    if f(buf).None? then Extracted([], buf) else Cons(f(buf).value, ExtractAll(f, Tail(f, buf)))
  }

  /** The loop of `f` on a buffer is the extraction by `g`, if they agree on all that it looks at. */
  lemma {:induction false} Agreement(f: string -> Option<string>, g: string -> Option<string>, buf: string)
    requires Names(f) && Prefixes(g) && forall k: nat :: f(Rest(f, buf, k)) == g(Rest(f, buf, k))
    ensures Ends(f, buf) && Outcome(f, buf) == ExtractAll(g, buf)
    decreases |buf|
  {
    assert f(Rest(f, buf, 0)) == g(Rest(f, buf, 0));
    if f(buf).None? {
      NoMessage(f, buf);
    } else {
      var tail := Tail(f, buf);
      forall k: nat ensures f(Rest(f, tail, k)) == g(Rest(f, tail, k)) {
        assert Rest(f, buf, k + 1) == Rest(f, tail, k);
      }
      Agreement(f, g, tail);
      OneMessage(f, buf);
    }
  }

  /** If `f` comes to a message where `g` sees none, and up to there they agree, they end up with
      different messages or leftovers. */
  lemma {:induction false} Disagreement(f: string -> Option<string>, g: string -> Option<string>, buf: string, k: nat)
    requires Names(f) && Prefixes(g) && Ends(f, buf)
    requires f(Rest(f, buf, k)).Some? && g(Rest(f, buf, k)).None?
    requires forall i: nat :: f(Rest(f, buf, i)) == g(Rest(f, buf, i)) || g(Rest(f, buf, i)).None?
    ensures Outcome(f, buf) != ExtractAll(g, buf)
    decreases k
  {
    assert f(Rest(f, buf, 0)) == g(Rest(f, buf, 0)) || g(Rest(f, buf, 0)).None?;
    if f(buf).Some? {
      var tail := Tail(f, buf);
      OneMessage(f, buf);
      if g(buf).Some? {
        forall i: nat ensures f(Rest(f, tail, i)) == g(Rest(f, tail, i)) || g(Rest(f, tail, i)).None? {
          assert Rest(f, buf, i + 1) == Rest(f, tail, i);
        }
        Disagreement(f, g, tail, k - 1);
        SameTail(f(buf).value, Outcome(f, tail), ExtractAll(g, tail));
      }
    }
  }

  lemma SameTail(m: string, a: Extracted, b: Extracted)
    requires a != b
    ensures Cons(m, a) != Cons(m, b)
  {
    assert ([m] + a.messages)[1..] == a.messages && ([m] + b.messages)[1..] == b.messages;
  }
}
