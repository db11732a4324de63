/**
The control socket of a Unix service: commands are lines ended by CR LF, cut out of a cache per socket as
the bytes arrive. An empty line ends one round of handling and leaves the rest of the cache for the next.
*/
module CommandStream {

  import opened Strings
  import opened Wrappers

  const CRLF := "\r\n"

  // ----- One command

  datatype Flags = Flags(cannotBeStopped: bool, canBeSuspended: bool)

  type Socket = nat

  datatype Event = Stop | Quit | Pause | Resume | Process(number: string) | Reply(socket: Socket, text: string)

  function ReplyTo(flags: Flags, cmd: string): bool {
    if cmd == "terminate" then !flags.cannotBeStopped
    else if cmd == "pause" || cmd == "resume" then flags.canBeSuspended
    else cmd == "alive" || (|cmd| > 4 && cmd[..4] == "num:")
  }

  /** What a command does to the service; a refused or unknown command does nothing. */
  function Effects(flags: Flags, cmd: string): seq<Event> {
    if !ReplyTo(flags, cmd) || cmd == "alive" then []
    else if cmd == "terminate" then [Stop, Quit]
    else if cmd == "pause" then [Pause]
    else if cmd == "resume" then [Resume]
    else [Process(cmd[4..])]
  }

  /** The effects of a command and then one reply. */
  function Handling(flags: Flags, socket: Socket, cmd: string): seq<Event> {
    Effects(flags, cmd) + [Reply(socket, if ReplyTo(flags, cmd) then "true" else "false")]
  }

  function Events(flags: Flags, socket: Socket, cmds: seq<string>): seq<Event> {
    if cmds == [] then []
    else
      var cmd := cmds[|cmds| - 1];
      Events(flags, socket, cmds[..|cmds| - 1]) + Handling(flags, socket, cmd)
  }

  // ----- Cutting lines out of a cache

  /** The lines that one round removes, and what it leaves. */
  datatype Round = Round(lines: seq<string>, rest: string)

  /** The next line of a cache, if it is complete, and what follows it. */
  function Next(cache: string): (r: (Option<string>, string))
    ensures r.0.None? ==> r.1 == cache
    ensures r.0.Some? ==> |r.0.value| + 2 + |r.1| == |cache|
  {
    var k := Find(cache, CRLF, 0);
    if k.None? then (None, cache) else (Some(cache[..k.value]), cache[k.value + 2..])
  }

  function Drain(cache: string): Round
    decreases |cache|
  {
    var (line, rest) := Next(cache);
    if line.None? then Round([], cache)
    else if line.value == "" then Round([""], rest)
    else
      var round := Drain(rest);
      Round([line.value] + round.lines, round.rest)
  }

  /** The round that has removed some lines and then the line of the current command. */
  function Continued(lines: seq<string>, line: Option<string>, cache: string): Round {
    if line.None? then Round(lines, cache)
    else if line.value == "" then Round(lines + [""], cache)
    else Round(lines + [line.value] + Drain(cache).lines, Drain(cache).rest)
  }

  lemma {:induction false} ContinuedOnce(lines: seq<string>, cmd: string, cache: string)
    requires cmd != ""
    ensures Continued(lines, Some(cmd), cache) == Continued(lines + [cmd], Next(cache).0, Next(cache).1)
  {
    hide Next;
  }

  function Commands(lines: seq<string>): seq<string> {
    if lines == [] then []
    else
      Commands(lines[..|lines| - 1]) + if lines[|lines| - 1] == "" then [] else [lines[|lines| - 1]]
  }

  function Cached(cache: map<Socket, string>, s: Socket): string {
    if s in cache then cache[s] else ""
  }

  class CommandServer {
    const flags: Flags
    var cache: map<Socket, string>
    var log: seq<Event>

    constructor (flags: Flags)
      ensures this.flags == flags && cache == map[] && log == []
    {
      this.flags, cache, log := flags, map[], [];
    }

    method GetCommand(s: Socket) returns (cmd: string)
      modifies this`cache
      ensures var (line, rest) := Next(Cached(old(cache), s));
        cmd == (if line.Some? then line.value else "") && cache == old(cache)[s := rest]
    {
      var text := Cached(cache, s);
      var pos := Find(text, CRLF, 0);
      if pos.Some? {
        cmd := text[..pos.value];
        cache := cache[s := text[pos.value + 2..]];
      } else {
        cmd := "";
        cache := cache[s := text];
      }
    }

    method Handle(s: Socket, cmd: string)
      requires cmd != ""
      modifies this`log
      ensures log == old(log) + Handling(flags, s, cmd)
    {
      var retValue := false;
      if cmd == "terminate" {
        if !flags.cannotBeStopped {
          log := log + [Stop];
          log := log + [Quit];
          retValue := true;
        }
      } else if cmd == "pause" {
        if flags.canBeSuspended {
          log := log + [Pause];
          retValue := true;
        }
      } else if cmd == "resume" {
        if flags.canBeSuspended {
          log := log + [Resume];
          retValue := true;
        }
      } else if cmd == "alive" {
        retValue := true;
      } else if |cmd| > 4 && cmd[..4] == "num:" {
        log := log + [Process(cmd[4..])];
        retValue := true;
      }
      log := log + [Reply(s, if retValue then "true" else "false")];
    }

    method SlotReady(s: Socket, chunk: string)
      modifies this`cache, this`log
      ensures var round := Drain(Cached(old(cache), s) + chunk);
        && cache == old(cache)[s := round.rest]
        && log == old(log) + Events(flags, s, Commands(round.lines))
    {
      hide Next, Handling, Events, Commands, Drain, Continued, ReplyTo, Effects, Find;
      ghost var whole := Cached(cache, s) + chunk;
      ghost var done: seq<string> := [];
      ghost var line, rest := Next(whole).0, Next(whole).1;
      cache := cache[s := Cached(cache, s) + chunk];
      var cmd := GetCommand(s);
      UpdatedTwice(old(cache), s, whole, rest);
      RoundBegins(whole);
      NothingDone(flags, s);
      while cmd != ""
        invariant cache == old(cache)[s := rest]
        invariant cmd == if line.Some? then line.value else ""
        invariant Continued(done, line, rest) == Drain(whole)
        invariant Commands(done) == done && log == old(log) + Events(flags, s, done)
        decreases |rest| + |cmd|
      {
        Handle(s, cmd);
        ContinuedOnce(done, cmd, rest);
        EventsAppend(flags, s, done, cmd);
        done := done + [cmd];
        cmd := GetCommand(s);
        UpdatedTwice(old(cache), s, rest, Next(rest).1);
        line, rest := Next(rest).0, Next(rest).1;
      }
      RoundEnds(done, line, rest);
    }
  }

  lemma {:induction false} UpdatedTwice(cache: map<Socket, string>, s: Socket, first: string, second: string)
    ensures Cached(cache[s := first], s) == first && cache[s := first][s := second] == cache[s := second]
  {
  }

  lemma {:induction false} NothingDone(flags: Flags, s: Socket)
    ensures Commands([]) == [] && Events(flags, s, []) == []
  {
  }

  lemma {:induction false} RoundBegins(cache: string)
    ensures Drain(cache) == Continued([], Next(cache).0, Next(cache).1)
  {
    hide Next;
    var line := Next(cache).0;
    if line.Some? {
      assert [] + [line.value] == [line.value];
    }
  }

  lemma {:induction false} RoundEnds(done: seq<string>, line: Option<string>, cache: string)
    requires Commands(done) == done && (line.Some? ==> line.value == "")
    ensures Commands(Continued(done, line, cache).lines) == done && Continued(done, line, cache).rest == cache
  {
    assert (done + [""])[..|done|] == done;
  }

  lemma {:induction false} EventsAppend(flags: Flags, s: Socket, done: seq<string>, cmd: string)
    requires cmd != ""
    ensures Events(flags, s, done + [cmd])
      == Events(flags, s, done) + Handling(flags, s, cmd)
    ensures Commands(done) == done ==> Commands(done + [cmd]) == done + [cmd]
  {
    assert (done + [cmd])[..|done|] == done;
  }

  // ----- Deliveries on one socket

  /** What a socket's deliveries have come to: the cache and the lines removed from it so far. */
  datatype Session = Session(cache: string, lines: seq<string>)

  function Deliver(s: Session, chunk: string): Session {
    var round := Drain(s.cache + chunk);
    Session(round.rest, s.lines + round.lines)
  }

  function DeliverAll(chunks: seq<string>): Session {
    if chunks == [] then Session("", []) else Deliver(DeliverAll(chunks[..|chunks| - 1]), chunks[|chunks| - 1])
  }

  function Flat(chunks: seq<string>): string {
    if chunks == [] then "" else Flat(chunks[..|chunks| - 1]) + chunks[|chunks| - 1]
  }

  function Lines(text: string): seq<string> {
    Pieces(text, CRLF)
  }

  /** Every line but the last is a command. */
  predicate OnlyLastEmpty(lines: seq<string>) {
    forall i :: 0 <= i < |lines| - 1 ==> lines[i] != ""
  }

  // ----- Cutting and concatenation

  lemma {:induction false} FindExtends(u: string, v: string, k: nat)
    requires Find(u, CRLF, 0) == Some(k)
    ensures Find(u + v, CRLF, 0) == Some(k)
  {
    hide Find;
    FindIsLeftmost(u, CRLF, 0);
    FindIsLeftmost(u + v, CRLF, 0);
    assert (u + v)[k..k + 2] == u[k..k + 2];
    assert OccursAt(u + v, CRLF, k);
    forall i | 0 <= i < k
      ensures !OccursAt(u + v, CRLF, i)
    {
      assert !OccursAt(u, CRLF, i) && (u + v)[i..i + 2] == u[i..i + 2];
    }
  }

  /** Lines cut from the front may be cut before more text is added. */
  lemma {:induction false} CutInSteps(
      u: string, v: string, front: seq<string>, mid: string, back: seq<string>, tail: string)
    requires IsFront(u, front, mid) && IsCutting(mid + v, CRLF, back, tail)
    ensures IsCutting(u + v, CRLF, front + back, tail)
    decreases |front|
  {
    hide Find;
    if front == [] {
      assert front + back == back;
    } else {
      var k := |front[0]|;
      FindExtends(u, v, k);
      assert (u + v)[k + 2..] == u[k + 2..] + v;
      CutInSteps(u[k + 2..], v, front[1..], mid, back, tail);
      assert (front + back)[0] == front[0] && (front + back)[1..] == front[1..] + back;
      assert (u + v)[..k] == u[..k];
    }
  }

  /** Some first lines of a text, each ended by its leftmost CR LF, and what follows them. */
  predicate IsFront(text: string, lines: seq<string>, rest: string) {
    if lines == [] then text == rest
    else
      && Find(text, CRLF, 0) == Some(|lines[0]|)
      && text[..|lines[0]|] == lines[0]
      && IsFront(text[|lines[0]| + 2..], lines[1..], rest)
  }

  lemma {:induction false} FrontsTogether(
      u: string, v: string, front: seq<string>, mid: string, back: seq<string>, rest: string)
    requires IsFront(u, front, mid) && IsFront(mid + v, back, rest)
    ensures IsFront(u + v, front + back, rest)
    decreases |front|
  {
    hide Find;
    if front == [] {
      assert front + back == back;
    } else {
      var k := |front[0]|;
      FindExtends(u, v, k);
      assert (u + v)[k + 2..] == u[k + 2..] + v;
      FrontsTogether(u[k + 2..], v, front[1..], mid, back, rest);
      assert (front + back)[0] == front[0] && (front + back)[1..] == front[1..] + back;
      assert (u + v)[..k] == u[..k];
    }
  }

  lemma {:induction false} FrontGrows(text: string, line: string, lines: seq<string>, rest: string)
    requires Find(text, CRLF, 0) == Some(|line|) && text[..|line|] == line
    requires IsFront(text[|line| + 2..], lines, rest)
    ensures IsFront(text, [line] + lines, rest)
  {
    hide Find;
    assert ([line] + lines)[0] == line && ([line] + lines)[1..] == lines;
  }

  lemma {:induction false} DrainIsFront(cache: string)
    ensures var round := Drain(cache); IsFront(cache, round.lines, round.rest) && OnlyLastEmpty(round.lines)
    ensures var round := Drain(cache);
      Find(round.rest, CRLF, 0).None? || (round.lines != [] && round.lines[|round.lines| - 1] == "")
    decreases |cache|
  {
    hide Find;
    var (line, rest) := Next(cache);
    if line.Some? && line.value != "" {
      DrainIsFront(rest);
      var round := Drain(rest);
      assert Drain(cache) == Round([line.value] + round.lines, round.rest);
      FrontGrows(cache, line.value, round.lines, round.rest);
      hide IsFront, Drain;
    }
  }

  /** A front is so many first lines of the text, and what it leaves is those lines cut off. */
  lemma {:induction false} FrontIsPrefix(text: string, lines: seq<string>, rest: string)
    requires IsFront(text, lines, rest)
    ensures Lines(text) == lines + Lines(rest) && Tail(text, CRLF) == Tail(rest, CRLF)
    ensures text == Joined(lines, CRLF) + rest
  {
    PiecesAreCutting(rest, CRLF);
    assert rest + "" == rest && text + "" == text;
    CutInSteps(text, "", lines, rest, Lines(rest), Tail(rest, CRLF));
    CuttingIsUnique(text, CRLF, lines + Lines(rest), Tail(rest, CRLF));
    FrontJoins(text, lines, rest);
  }

  lemma {:induction false} FrontJoins(text: string, lines: seq<string>, rest: string)
    requires IsFront(text, lines, rest)
    ensures text == Joined(lines, CRLF) + rest
    decreases |lines|
  {
    hide Find;
    if lines != [] {
      var k := |lines[0]|;
      FindIsLeftmost(text, CRLF, 0);
      FrontJoins(text[k + 2..], lines[1..], rest);
      assert text == text[..k] + text[k..k + 2] + text[k + 2..];
    }
  }

  // ----- Any chunking

  /**
  However a stream is chunked, the lines removed are its first lines in order, and with their CR LF and the
  cache they are all that was received.
  */
  lemma {:induction false} StreamConserved(chunks: seq<string>)
    ensures var s := DeliverAll(chunks);
      && s.lines <= Lines(Flat(chunks))
      && Flat(chunks) == Joined(s.lines, "\r\n") + s.cache
      && IsFront(Flat(chunks), s.lines, s.cache)
  {
    hide Find, Drain;
    if chunks != [] {
      var before, last := chunks[..|chunks| - 1], chunks[|chunks| - 1];
      StreamConserved(before);
      var s := DeliverAll(before);
      var round := Drain(s.cache + last);
      DrainIsFront(s.cache + last);
      FrontsTogether(Flat(before), last, s.lines, s.cache, round.lines, round.rest);
    }
    var s := DeliverAll(chunks);
    FrontIsPrefix(Flat(chunks), s.lines, s.cache);
  }

  /** A round ends only for want of a complete line or at an empty one. */
  lemma {:induction false} NothingLeftBehind(chunks: seq<string>)
    ensures var s := DeliverAll(chunks);
      Find(s.cache, CRLF, 0).None? || (s.lines != [] && s.lines[|s.lines| - 1] == "")
  {
    hide Drain;
    if chunks == [] {
      assert Find("", CRLF, 0).None?;
    } else {
      var s := DeliverAll(chunks[..|chunks| - 1]);
      DrainIsFront(s.cache + chunks[|chunks| - 1]);
    }
  }

  /** Without an empty command, every chunking handles all the lines and keeps the tail. */
  lemma {:induction false} AllLinesHandled(chunks: seq<string>)
    requires OnlyLastEmpty(Lines(Flat(chunks)))
    ensures DeliverAll(chunks) == Session(Tail(Flat(chunks), CRLF), Lines(Flat(chunks)))
  {
    hide Find;
    var s := DeliverAll(chunks);
    StreamConserved(chunks);
    FrontIsPrefix(Flat(chunks), s.lines, s.cache);
    NothingLeftBehind(chunks);
    if Find(s.cache, CRLF, 0).Some? {
      NothingAfterEmpty(s.lines, Lines(s.cache));
    }
  }

  lemma {:induction false} NothingAfterEmpty(lines: seq<string>, more: seq<string>)
    requires lines != [] && lines[|lines| - 1] == "" && OnlyLastEmpty(lines + more)
    ensures more == []
  {
    assert (lines + more)[|lines| - 1] == "";
  }

  ghost predicate ChunkingIrrelevant(stream: string) {
    forall chunks :: Flat(chunks) == stream && "" !in chunks ==>
      SameHandling(DeliverAll(chunks), Deliver(Session("", []), stream))
  }

  predicate SameHandling(a: Session, b: Session) {
    Commands(a.lines) == Commands(b.lines) && a.cache == b.cache
  }

  lemma {:induction false} OneDelivery(stream: string)
    ensures DeliverAll([stream]) == Deliver(Session("", []), stream) && Flat([stream]) == stream
  {
    assert [stream][..0] == [];
    assert DeliverAll([stream]) == Deliver(DeliverAll([]), stream);
    assert Flat([stream]) == Flat([]) + stream;
  }

  lemma {:induction false} FrontAlone(text: string, lines: seq<string>, rest: string)
    requires IsFront(text, lines, rest)
    ensures IsFront(Joined(lines, CRLF), lines, "")
    decreases |lines|
  {
    hide Find;
    if lines != [] {
      var k := |lines[0]|;
      var front := Joined(lines, CRLF);
      FrontJoins(text, lines, rest);
      FrontAlone(text[k + 2..], lines[1..], rest);
      FindIsLeftmost(text, CRLF, 0);
      FindIsLeftmost(front, CRLF, 0);
      assert front <= text && front[k..k + 2] == CRLF && front[..k] == lines[0];
      assert OccursAt(front, CRLF, k);
      forall i | 0 <= i < k
        ensures !OccursAt(front, CRLF, i)
      {
        assert !OccursAt(text, CRLF, i) && front[i..i + 2] == text[i..i + 2];
      }
      assert front[k + 2..] == Joined(lines[1..], CRLF);
    }
  }

  /** An empty line before another complete one: cutting the stream after it lets a second round go on. */
  lemma {:induction false} EmptyLineSplits(stream: string) returns (chunks: seq<string>)
    requires !OnlyLastEmpty(Lines(stream))
    ensures Flat(chunks) == stream && "" !in chunks
    ensures |DeliverAll(chunks).cache| < |Deliver(Session("", []), stream).cache|
  {
    hide Find, Drain, IsFront, Joined;
    var round := Drain(stream);
    DrainIsFront(stream);
    FrontIsPrefix(stream, round.lines, round.rest);
    assert "" + stream == stream;
    var front := Joined(round.lines, CRLF);
    assert front != "" by { JoinedNotEmpty(round.lines); }
    chunks := [front, round.rest];
    assert chunks[..1] == [front];
    OneDelivery(front);
    assert Flat(chunks) == Flat([front]) + round.rest;
    FrontAlone(stream, round.lines, round.rest);
    FrontIsPrefix(front, round.lines, "");
    assert Lines("") == [] && Tail("", CRLF) == "" by { NoLines(); }
    assert Lines(front) == round.lines;
    AllLinesHandled([front]);
    assert DeliverAll(chunks) == Deliver(DeliverAll([front]), round.rest);
    assert "" + round.rest == round.rest;
    DrainShrinks(round.rest);
  }

  lemma {:induction false} JoinedNotEmpty(lines: seq<string>)
    ensures lines != [] ==> Joined(lines, CRLF) != ""
  {
  }

  lemma {:induction false} NoLines()
    ensures Lines("") == [] && Tail("", CRLF) == ""
  {
  }

  lemma {:induction false} DrainShrinks(cache: string)
    ensures Lines(cache) != [] ==> |Drain(cache).rest| < |cache|
    ensures |Drain(cache).rest| <= |cache|
    decreases |cache|
  {
    hide Find;
    var (line, rest) := Next(cache);
    if line.Some? {
      DrainShrinks(rest);
    }
  }

  /**
  Every chunking of a stream handles the same commands and leaves the same cache as one delivery exactly when
  no complete line but the last is empty.
  */
  lemma {:induction false} ChunkingIrrelevantExactly(stream: string)
    ensures ChunkingIrrelevant(stream) <==> OnlyLastEmpty(Lines(stream))
  {
    hide Deliver, Lines, SameHandling;
    if OnlyLastEmpty(Lines(stream)) {
      OneDelivery(stream);
      AllLinesHandled([stream]);
      forall chunks | Flat(chunks) == stream && "" !in chunks
        ensures SameHandling(DeliverAll(chunks), Deliver(Session("", []), stream))
      {
        AllLinesHandled(chunks);
        SameIsSame(DeliverAll(chunks));
      }
    } else {
      var chunks := EmptyLineSplits(stream);
      SameCaches(DeliverAll(chunks), Deliver(Session("", []), stream));
    }
  }

  lemma {:induction false} SameIsSame(s: Session)
    ensures SameHandling(s, s)
  {
  }

  lemma {:induction false} SameCaches(a: Session, b: Session)
    ensures SameHandling(a, b) ==> a.cache == b.cache
  {
  }

  // ----- Several sockets

  datatype Delivery = Delivery(socket: Socket, chunk: string)

  /** The server after some rounds of SlotReady. */
  datatype Server = Server(cache: map<Socket, string>, log: seq<Event>)

  function Serve(flags: Flags, deliveries: seq<Delivery>): Server {
    if deliveries == [] then Server(map[], [])
    else
      var Server(cache, log) := Serve(flags, deliveries[..|deliveries| - 1]);
      var Delivery(s, chunk) := deliveries[|deliveries| - 1];
      var round := Drain(Cached(cache, s) + chunk);
      Server(cache[s := round.rest], log + Events(flags, s, Commands(round.lines)))
  }

  function ChunksOf(deliveries: seq<Delivery>, s: Socket): seq<string> {
    if deliveries == [] then []
    else
      var last := deliveries[|deliveries| - 1];
      ChunksOf(deliveries[..|deliveries| - 1], s) + if last.socket == s then [last.chunk] else []
  }

  function RepliesTo(log: seq<Event>, s: Socket): seq<string> {
    if log == [] then []
    else RepliesTo(log[..|log| - 1], s) + ReplyText(log[|log| - 1], s)
  }

  function ReplyText(e: Event, s: Socket): seq<string> {
    if e.Reply? && e.socket == s then [e.text] else []
  }

  function Texts(flags: Flags, cmds: seq<string>): seq<string> {
    seq(|cmds|, i requires 0 <= i < |cmds| => if ReplyTo(flags, cmds[i]) then "true" else "false")
  }

  lemma {:induction false} RepliesAppend(a: seq<Event>, b: seq<Event>, s: Socket)
    ensures RepliesTo(a + b, s) == RepliesTo(a, s) + RepliesTo(b, s)
  {
    if b == [] {
      assert a + b == a;
    } else {
      assert (a + b)[..|a + b| - 1] == a + b[..|b| - 1];
      RepliesAppend(a, b[..|b| - 1], s);
    }
  }

  lemma {:induction false} NoReplies(log: seq<Event>, s: Socket)
    requires forall e :: e in log ==> !e.Reply?
    ensures RepliesTo(log, s) == []
  {
    if log != [] {
      NoReplies(log[..|log| - 1], s);
    }
  }

  lemma {:induction false} HandlingReplies(flags: Flags, socket: Socket, cmd: string, s: Socket)
    ensures RepliesTo(Handling(flags, socket, cmd), s)
      == if s == socket then [if ReplyTo(flags, cmd) then "true" else "false"] else []
  {
    hide ReplyTo;
    var effects := Effects(flags, cmd);
    var reply := Reply(socket, if ReplyTo(flags, cmd) then "true" else "false");
    NoReplies(effects, s);
    assert (effects + [reply])[..|effects|] == effects;
  }

  lemma {:induction false} LastText(flags: Flags, cmds: seq<string>)
    requires cmds != []
    ensures Texts(flags, cmds)
      == Texts(flags, cmds[..|cmds| - 1]) + [if ReplyTo(flags, cmds[|cmds| - 1]) then "true" else "false"]
  {
    hide ReplyTo;
  }

  lemma {:induction false} EventsReply(flags: Flags, socket: Socket, cmds: seq<string>, s: Socket)
    ensures RepliesTo(Events(flags, socket, cmds), s) == if s == socket then Texts(flags, cmds) else []
  {
    hide ReplyTo, Handling, Texts;
    if cmds == [] {
      assert Texts(flags, []) == [] by { NothingHandled(flags, s); }
    }
    if cmds != [] {
      var before, cmd := cmds[..|cmds| - 1], cmds[|cmds| - 1];
      hide RepliesTo;
      EventsReply(flags, socket, before, s);
      HandlingReplies(flags, socket, cmd, s);
      RepliesAppend(Events(flags, socket, before), Handling(flags, socket, cmd), s);
      LastText(flags, cmds);
    }
  }

  lemma {:induction false} CommandsAppend(a: seq<string>, b: seq<string>)
    ensures Commands(a + b) == Commands(a) + Commands(b)
  {
    if b == [] {
      assert a + b == a;
    } else {
      assert (a + b)[..|a + b| - 1] == a + b[..|b| - 1];
      CommandsAppend(a, b[..|b| - 1]);
    }
  }

  lemma {:induction false} TextsAppend(flags: Flags, a: seq<string>, b: seq<string>)
    ensures Texts(flags, a + b) == Texts(flags, a) + Texts(flags, b)
  {
    hide ReplyTo;
  }

  /** Interleaved deliveries: each socket keeps the cache, and gets the replies, of its own chunks alone. */
  lemma {:induction false} SocketsAreSeparate(flags: Flags, deliveries: seq<Delivery>, s: Socket)
    ensures var session := DeliverAll(ChunksOf(deliveries, s));
      && Cached(Serve(flags, deliveries).cache, s) == session.cache
      && RepliesTo(Serve(flags, deliveries).log, s) == Texts(flags, Commands(session.lines))
  {
    hide Drain, Events, Commands, RepliesTo, Texts;
    if deliveries == [] {
      NothingHandled(flags, s);
    } else {
      var before, last := deliveries[..|deliveries| - 1], deliveries[|deliveries| - 1];
      SocketsAreSeparate(flags, before, s);
      var server := Serve(flags, before);
      var round := Drain(Cached(server.cache, last.socket) + last.chunk);
      var cmds := Commands(round.lines);
      RepliesAppend(server.log, Events(flags, last.socket, cmds), s);
      EventsReply(flags, last.socket, cmds, s);
      assert Serve(flags, deliveries).log == server.log + Events(flags, last.socket, cmds);
      assert Cached(Serve(flags, deliveries).cache, s)
        == if last.socket == s then round.rest else Cached(server.cache, s);
      assert ChunksOf(deliveries, s) == ChunksOf(before, s) + if last.socket == s then [last.chunk] else [];
      if last.socket == s {
        var chunks := ChunksOf(before, s);
        assert (chunks + [last.chunk])[..|chunks|] == chunks;
        var lines := DeliverAll(chunks).lines;
        CommandsAppend(lines, round.lines);
        assert Texts(flags, Commands(lines) + cmds) == Texts(flags, Commands(lines)) + Texts(flags, cmds) by {
          TextsAppend(flags, Commands(lines), cmds);
        }
        assert DeliverAll(chunks + [last.chunk]) == Deliver(DeliverAll(chunks), last.chunk);
        assert ChunksOf(deliveries, s) == chunks + [last.chunk];
        assert DeliverAll(chunks + [last.chunk]) == Session(round.rest, lines + round.lines);
      } else {
        assert ChunksOf(deliveries, s) == ChunksOf(before, s);
        assert RepliesTo(server.log, s) + [] == RepliesTo(server.log, s);
      }
    }
  }

  lemma {:induction false} NothingHandled(flags: Flags, s: Socket)
    ensures RepliesTo([], s) == [] && Texts(flags, []) == [] && Commands([]) == []
  {
  }

  // ----- What the lines do, and what is answered

  datatype Command = Command(socket: Socket, line: string)

  function Commanded(s: Socket, lines: seq<string>): seq<Command> {
    seq(|lines|, i requires 0 <= i < |lines| => Command(s, lines[i]))
  }

  /** The lines that were handled, in the order of handling, with the sockets that sent them. */
  function Handled(flags: Flags, deliveries: seq<Delivery>): seq<Command> {
    if deliveries == [] then []
    else
      var before, last := deliveries[..|deliveries| - 1], deliveries[|deliveries| - 1];
      Handled(flags, before)
      + Commanded(last.socket, Commands(Drain(Cached(Serve(flags, before).cache, last.socket) + last.chunk).lines))
  }

  function LinesOf(cmds: seq<Command>, s: Socket): seq<string> {
    if cmds == [] then []
    else
      var last := cmds[|cmds| - 1];
      LinesOf(cmds[..|cmds| - 1], s) + if last.socket == s then [last.line] else []
  }

  lemma {:induction false} LinesOfAppend(a: seq<Command>, b: seq<Command>, s: Socket)
    ensures LinesOf(a + b, s) == LinesOf(a, s) + LinesOf(b, s)
  {
    if b == [] {
      assert a + b == a;
    } else {
      assert (a + b)[..|a + b| - 1] == a + b[..|b| - 1];
      LinesOfAppend(a, b[..|b| - 1], s);
    }
  }

  lemma {:induction false} LinesOfCommanded(socket: Socket, lines: seq<string>, s: Socket)
    ensures LinesOf(Commanded(socket, lines), s) == if socket == s then lines else []
  {
    hide Commanded;
    if lines == [] {
      NoneCommanded(socket);
    } else {
      var before, line := lines[..|lines| - 1], lines[|lines| - 1];
      LinesOfCommanded(socket, before, s);
      LastCommanded(socket, lines);
      var cmds := Commanded(socket, before);
      assert (cmds + [Command(socket, line)])[..|cmds|] == cmds;
      assert before + [line] == lines;
    }
  }

  /** Of each socket exactly the lines are handled that its own chunks complete, without the empty ones. */
  lemma {:induction false} HandledOfSocket(flags: Flags, deliveries: seq<Delivery>, s: Socket)
    ensures LinesOf(Handled(flags, deliveries), s) == Commands(DeliverAll(ChunksOf(deliveries, s)).lines)
  {
    hide Drain, Commands, LinesOf, Commanded, Serve, Deliver;
    if deliveries == [] {
      NothingHandled(flags, s);
      NoneCommanded(s);
      LinesOfCommanded(s, [], s);
    } else {
      var before, last := deliveries[..|deliveries| - 1], deliveries[|deliveries| - 1];
      HandledOfSocket(flags, before, s);
      SocketsAreSeparate(flags, before, last.socket);
      var session := DeliverAll(ChunksOf(before, last.socket));
      var lines := Drain(session.cache + last.chunk).lines;
      LinesOfAppend(Handled(flags, before), Commanded(last.socket, Commands(lines)), s);
      LinesOfCommanded(last.socket, Commands(lines), s);
      assert ChunksOf(deliveries, s) == ChunksOf(before, s) + if last.socket == s then [last.chunk] else [];
      if last.socket == s {
        OneMoreDelivered(ChunksOf(before, s), last.chunk);
        CommandsAppend(session.lines, lines);
      } else {
        assert ChunksOf(deliveries, s) == ChunksOf(before, s);
      }
    }
  }

  lemma {:induction false} OneMoreDelivered(chunks: seq<string>, chunk: string)
    ensures var s := DeliverAll(chunks); DeliverAll(chunks + [chunk]).lines == s.lines + Drain(s.cache + chunk).lines
  {
    hide Drain;
    assert (chunks + [chunk])[..|chunks|] == chunks;
  }

  lemma {:induction false} NoneCommanded(s: Socket)
    ensures Commanded(s, []) == []
  {
  }

  predicate IsNumber(line: string) {
    |line| > 4 && line[0] == 'n' && line[1] == 'u' && line[2] == 'm' && line[3] == ':'
  }

  /** The numbers asked for by the lines, in order. */
  function NumbersAsked(cmds: seq<Command>): seq<string> {
    if cmds == [] then []
    else
      var line := cmds[|cmds| - 1].line;
      NumbersAsked(cmds[..|cmds| - 1]) + if IsNumber(line) then [line[4..]] else []
  }

  function NumbersProcessed(log: seq<Event>): seq<string> {
    if log == [] then []
    else
      var e := log[|log| - 1];
      NumbersProcessed(log[..|log| - 1]) + if e.Process? then [e.number] else []
  }

  lemma {:induction false} NumbersAppend(a: seq<Event>, b: seq<Event>)
    ensures NumbersProcessed(a + b) == NumbersProcessed(a) + NumbersProcessed(b)
  {
    if b == [] {
      assert a + b == a;
    } else {
      assert (a + b)[..|a + b| - 1] == a + b[..|b| - 1];
      NumbersAppend(a, b[..|b| - 1]);
    }
  }

  function Asked(cmds: seq<Command>, line: string): nat {
    if cmds == [] then 0 else Asked(cmds[..|cmds| - 1], line) + if cmds[|cmds| - 1].line == line then 1 else 0
  }

  /** A log of handled lines: how often each thing was done, and in which order with its reply. */
  predicate Obeys(flags: Flags, cmds: seq<Command>, log: seq<Event>) {
    && multiset(log)[Pause] == (if flags.canBeSuspended then Asked(cmds, "pause") else 0)
    && multiset(log)[Resume] == (if flags.canBeSuspended then Asked(cmds, "resume") else 0)
    && multiset(log)[Stop] == multiset(log)[Quit] == (if flags.cannotBeStopped then 0 else Asked(cmds, "terminate"))
    && NumbersProcessed(log) == NumbersAsked(cmds)
  }

  /** After a stop comes a quit, and whatever was done is followed at once by the reply "true". */
  predicate RepliesFollow(log: seq<Event>) {
    forall i :: 0 <= i < |log| && !log[i].Reply? ==>
      && i + 1 < |log|
      && if log[i].Stop? then log[i + 1].Quit? else log[i + 1].Reply? && log[i + 1].text == "true"
  }

  lemma {:induction false} RepliesFollowAppend(a: seq<Event>, b: seq<Event>)
    requires RepliesFollow(a) && RepliesFollow(b)
    ensures RepliesFollow(a + b)
  {
    forall i | 0 <= i < |a + b| && !(a + b)[i].Reply?
      ensures i + 1 < |a + b|
      ensures if (a + b)[i].Stop? then (a + b)[i + 1].Quit? else (a + b)[i + 1].Reply? && (a + b)[i + 1].text == "true"
    {
      if i >= |a| {
        assert (a + b)[i] == b[i - |a|] && !b[i - |a|].Reply?;
      }
    }
  }

  lemma {:induction false} NumberPrefix(line: string)
    requires |line| > 4
    ensures line[..4] == "num:" <==> IsNumber(line)
  {
    var p := line[..4];
    assert p[0] == line[0] && p[1] == line[1] && p[2] == line[2] && p[3] == line[3];
  }

  lemma {:induction false} OneAsked(c: Command, line: string)
    ensures Asked([c], line) == if c.line == line then 1 else 0
    ensures NumbersAsked([c]) == if IsNumber(c.line) then [c.line[4..]] else []
  {
    assert [c][..0] == [];
  }

  lemma {:induction false} OneEvent(e: Event)
    ensures NumbersProcessed([e]) == if e.Process? then [e.number] else []
  {
    assert [e][..0] == [];
  }

  /** How often each thing was done. */
  predicate Did(log: seq<Event>, pauses: nat, resumes: nat, stops: nat, numbers: seq<string>) {
    && multiset(log)[Pause] == pauses && multiset(log)[Resume] == resumes
    && multiset(log)[Stop] == multiset(log)[Quit] == stops && NumbersProcessed(log) == numbers
  }

  lemma {:induction false} DidOne(number: string)
    ensures Did([], 0, 0, 0, []) && Did([Pause], 1, 0, 0, []) && Did([Resume], 0, 1, 0, [])
    ensures Did([Process(number)], 0, 0, 0, [number])
  {
    OneEvent(Pause);
    OneEvent(Resume);
    OneEvent(Process(number));
  }

  lemma {:induction false} DidStop()
    ensures Did([Stop, Quit], 0, 0, 1, [])
  {
    OneEvent(Stop);
    assert [Stop, Quit][..1] == [Stop];
  }

  /** The commands differ, and none of them asks for a number. */
  lemma {:induction false} WordsDiffer(line: string)
    ensures line == "terminate" ==> line != "pause" && line != "resume" && line != "alive" && !IsNumber(line)
    ensures line == "pause" ==> line != "resume" && line != "alive" && !IsNumber(line)
    ensures line == "resume" ==> line != "pause" && line != "alive" && !IsNumber(line)
    ensures line == "alive" ==> line != "pause" && line != "resume" && !IsNumber(line)
  {
    assert line == "resume" ==> line[0] == 'r';
  }

  lemma {:induction false} EffectsSpelled(flags: Flags, line: string)
    ensures Effects(flags, line) ==
      if line == "terminate" then (if flags.cannotBeStopped then [] else [Stop, Quit])
      else if line == "pause" then (if flags.canBeSuspended then [Pause] else [])
      else if line == "resume" then (if flags.canBeSuspended then [Resume] else [])
      else if IsNumber(line) then [Process(line[4..])] else []
  {
    WordsDiffer(line);
    if |line| > 4 {
      NumberPrefix(line);
    }
    hide IsNumber;
  }

  lemma {:induction false} EffectsDone(flags: Flags, line: string)
    ensures Did(Effects(flags, line),
                if line == "pause" && flags.canBeSuspended then 1 else 0,
                if line == "resume" && flags.canBeSuspended then 1 else 0,
                if line == "terminate" && !flags.cannotBeStopped then 1 else 0,
                if IsNumber(line) then [line[4..]] else [])
  {
    hide Did, Effects;
    WordsDiffer(line);
    EffectsSpelled(flags, line);
    DidOne(if IsNumber(line) then line[4..] else "");
    hide IsNumber;
    DidStop();
  }

  lemma {:induction false} EffectsObey(flags: Flags, c: Command)
    ensures Obeys(flags, [c], Effects(flags, c.line))
  {
    hide Effects, Asked, NumbersAsked, NumbersProcessed, IsNumber;
    EffectsDone(flags, c.line);
    OneAsked(c, "pause");
    OneAsked(c, "resume");
    OneAsked(c, "terminate");
  }

  lemma {:induction false} ReplyAddsNothing(flags: Flags, cmds: seq<Command>, log: seq<Event>, reply: Event)
    requires Obeys(flags, cmds, log) && reply.Reply?
    ensures Obeys(flags, cmds, log + [reply])
  {
    NumbersAppend(log, [reply]);
    OneEvent(reply);
    hide Asked, NumbersAsked, NumbersProcessed;
  }

  lemma {:induction false} HandlingObeys(flags: Flags, s: Socket, line: string)
    ensures Obeys(flags, [Command(s, line)], Handling(flags, s, line))
  {
    hide Effects, ReplyTo, Obeys;
    EffectsObey(flags, Command(s, line));
    var reply := Reply(s, if ReplyTo(flags, line) then "true" else "false");
    ReplyAddsNothing(flags, [Command(s, line)], Effects(flags, line), reply);
  }

  lemma {:induction false} HandlingReplied(flags: Flags, s: Socket, line: string)
    ensures RepliesFollow(Handling(flags, s, line))
  {
  }

  lemma {:induction false} AskedAppend(a: seq<Command>, b: seq<Command>, line: string)
    ensures Asked(a + b, line) == Asked(a, line) + Asked(b, line)
    ensures NumbersAsked(a + b) == NumbersAsked(a) + NumbersAsked(b)
  {
    if b == [] {
      assert a + b == a;
    } else {
      assert (a + b)[..|a + b| - 1] == a + b[..|b| - 1];
      AskedAppend(a, b[..|b| - 1], line);
    }
  }

  lemma {:induction false} ObeysTogether(
      flags: Flags, a: seq<Command>, b: seq<Command>, first: seq<Event>, second: seq<Event>)
    requires Obeys(flags, a, first) && Obeys(flags, b, second)
    ensures Obeys(flags, a + b, first + second)
  {
    AskedAppend(a, b, "pause");
    AskedAppend(a, b, "resume");
    AskedAppend(a, b, "terminate");
    NumbersAppend(first, second);
    hide Asked, NumbersAsked, NumbersProcessed;
  }

  lemma {:induction false} NothingObeyed(flags: Flags)
    ensures Obeys(flags, [], []) && RepliesFollow([])
  {
  }

  lemma {:induction false} LastCommanded(s: Socket, lines: seq<string>)
    requires lines != []
    ensures Commanded(s, lines) == Commanded(s, lines[..|lines| - 1]) + [Command(s, lines[|lines| - 1])]
  {
  }

  lemma {:induction false} EventsObey(flags: Flags, s: Socket, lines: seq<string>)
    ensures Obeys(flags, Commanded(s, lines), Events(flags, s, lines)) && RepliesFollow(Events(flags, s, lines))
  {
    hide Handling, Obeys, RepliesFollow, Commanded;
    if lines == [] {
      NoneCommanded(s);
      NothingObeyed(flags);
    } else {
      var before, line := lines[..|lines| - 1], lines[|lines| - 1];
      EventsObey(flags, s, before);
      HandlingObeys(flags, s, line);
      HandlingReplied(flags, s, line);
      LastCommanded(s, lines);
      var log, more := Events(flags, s, before), Handling(flags, s, line);
      ObeysTogether(flags, Commanded(s, before), [Command(s, line)], log, more);
      RepliesFollowAppend(log, more);
    }
  }

  /**
  Whatever arrives on whatever sockets: the service is paused, resumed and stopped as often as handled lines
  ask for it and the flags allow it, and every number asked for is processed, in order. Each reply follows at once.
  */
  lemma {:induction false} LinesObeyed(flags: Flags, deliveries: seq<Delivery>)
    ensures var cmds, log := Handled(flags, deliveries), Serve(flags, deliveries).log;
      Obeys(flags, cmds, log) && RepliesFollow(log)
  {
    if deliveries != [] {
      hide Drain, Commands, Events, Commanded, Obeys, RepliesFollow;
      var before, last := deliveries[..|deliveries| - 1], deliveries[|deliveries| - 1];
      LinesObeyed(flags, before);
      var lines := Commands(Drain(Cached(Serve(flags, before).cache, last.socket) + last.chunk).lines);
      EventsObey(flags, last.socket, lines);
      var log, more := Serve(flags, before).log, Events(flags, last.socket, lines);
      ObeysTogether(flags, Handled(flags, before), Commanded(last.socket, lines), log, more);
      RepliesFollowAppend(log, more);
    }
  }

  /** Each socket gets one reply for each line of its own, in order, and the reply tells what was allowed. */
  lemma {:induction false} RepliesTell(flags: Flags, deliveries: seq<Delivery>, s: Socket)
    ensures var lines, replies := LinesOf(Handled(flags, deliveries), s), RepliesTo(Serve(flags, deliveries).log, s);
      && |replies| == |lines|
      && forall k :: 0 <= k < |lines| ==>
        replies[k] ==
          if (lines[k] == "terminate" && !flags.cannotBeStopped)
             || ((lines[k] == "pause" || lines[k] == "resume") && flags.canBeSuspended)
             || lines[k] == "alive" || IsNumber(lines[k])
          then "true" else "false"
  {
    HandledOfSocket(flags, deliveries, s);
    SocketsAreSeparate(flags, deliveries, s);
    var lines := LinesOf(Handled(flags, deliveries), s);
    hide Serve, Handled, LinesOf, RepliesTo, DeliverAll, ChunksOf, Commands;
    forall k | 0 <= k < |lines| && |lines[k]| > 4
      ensures lines[k][..4] == "num:" <==> IsNumber(lines[k])
    {
      NumberPrefix(lines[k]);
    }
  }
}
