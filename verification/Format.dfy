/** The format-string scanner, its meaning on a grammar of segments, and when that meaning is the documented one. */
module Format {

  import opened Wrappers

  const NUL: char := '\0'

  /** What a scan ends in: a text, an iteration that changes nothing and so repeats for ever, or a
      read past the terminator. */
  datatype Outcome = Done(text: string) | Hangs | Overreads

  /** The variables of the scanning loop. */
  datatype Machine = Machine(
    pos: nat, out: string, placeHolder: bool, isType: bool, bracket: bool, typ: string, index: int, cursor: int)

  const START := Machine(0, "", false, false, false, "", -1, 0)

  function At(fmt: string, pos: nat): char {
    if pos < |fmt| then fmt[pos] else NUL
  }

  /** Conversion to a 16-bit short. */
  function ToShort(x: int): int {
    (x + 32768) % 65536 - 32768
  }

  /** The size test of the source compares as size_t, so a negative index is out of range. (An index of
      -1 would pass it, but -1 is handled as an automatic argument and the cursor never holds it.) */
  predicate InRange(args: seq<string>, i: int) {
    0 <= i < |args|
  }

  predicate IsTrue(s: string) {
    s == "Y" || s == "y" || s == "True" || s == "TRUE" || s == "1"
  }

  function TrueFalse(s: string): string {
    if IsTrue(s) then "true" else "false"
  }

  predicate IsBool(t: string) {
    t == "b" || t == "B"
  }

  predicate IsDigit(c: char) {
    '0' <= c <= '9'
  }

  function DigitOf(c: char): int {
    c as int - '0' as int
  }

  // ----- One iteration of the loop, in its three stages; true means that the iteration ends there.

  function BracketStage(fmt: string, m: Machine): (Machine, bool) {
    if !m.bracket then (m, false) else
      var p := if At(fmt, m.pos) == '}' then m.pos + 1 else m.pos;
      if At(fmt, p) == '}'
      then (m.(out := m.out + "{}", bracket := false, placeHolder := false, pos := p + 1), true)
      else (m.(out := m.out + "{", bracket := false, placeHolder := false, pos := p), false)
  }

  function TypeStage(fmt: string, args: seq<string>, m: Machine): (Machine, bool) {
    var c := At(fmt, m.pos);
    if !m.placeHolder || !m.isType || c == '{' then (m, false)
    else if c != '}' then (m.(typ := m.typ + [c], pos := m.pos + 1), true)
    else
      var closed := m.(typ := "", placeHolder := false, pos := m.pos + 1);
      if !IsBool(m.typ) then (closed.(index := -1, isType := false), false)
      else if m.index == -1 then
        if InRange(args, m.cursor)
        then (closed.(out := m.out + TrueFalse(args[m.cursor]), cursor := ToShort(m.cursor + 1), isType := false), true)
        else (closed.(isType := false), false)
      else if InRange(args, m.index)
      then (closed.(out := m.out + TrueFalse(args[m.index]), index := -1), true)
      else (closed.(index := -1, isType := false), false)
  }

  function PlainStage(fmt: string, args: seq<string>, m: Machine): Machine {
    var c := At(fmt, m.pos);
    var next := m.(pos := m.pos + 1);
    if !m.placeHolder then
      if c == '{' then next.(placeHolder := true) else next.(out := m.out + [c])
    else if c == '{' then next.(bracket := true)
    else if c == '}' then
      if m.isType || m.index < -1 then m
      else if m.index == -1 then
        if InRange(args, m.cursor)
        then next.(out := m.out + args[m.cursor], cursor := ToShort(m.cursor + 1), placeHolder := false)
        else next.(placeHolder := false)
      else if InRange(args, m.index)
      then next.(out := m.out + args[m.index], index := -1, placeHolder := false)
      else next.(index := -1, placeHolder := false)
    else if c == ':' then next.(isType := true)
    else if IsDigit(c) then next.(index := if m.index == -1 then DigitOf(c) else ToShort(m.index * 10 + DigitOf(c)))
    else m
  }

  function Iterate(fmt: string, args: seq<string>, m: Machine): Machine {
    var (m1, ends1) := BracketStage(fmt, m);
    if ends1 then m1 else
      var (m2, ends2) := TypeStage(fmt, args, m1);
      if ends2 then m2 else PlainStage(fmt, args, m2)
  }

  /** An iteration moves forward or changes nothing at all. */
  lemma {:induction false} MovesOrStays(fmt: string, args: seq<string>, m: Machine)
    requires At(fmt, m.pos) != NUL
    ensures Iterate(fmt, args, m).pos > m.pos || Iterate(fmt, args, m) == m
  {
  }

  /** The scan from a state of the loop to its end. */
  function Scan(fmt: string, args: seq<string>, m: Machine): Outcome
    decreases |fmt| - m.pos
  {
    if m.pos > |fmt| then Overreads
    else if At(fmt, m.pos) == NUL then Done(m.out)
    else
      var m' := Iterate(fmt, args, m);
      if m'.pos <= m.pos then Hangs else Scan(fmt, args, m')
  }

  lemma {:induction false} ScanStep(fmt: string, args: seq<string>, m: Machine)
    requires m.pos <= |fmt| && At(fmt, m.pos) != NUL
    ensures var m' := Iterate(fmt, args, m);
      Scan(fmt, args, m) == if m'.pos <= m.pos then Hangs else Scan(fmt, args, m')
  {
    hide Iterate;
  }

  lemma {:induction false} ScanStops(fmt: string, args: seq<string>, m: Machine)
    requires m.pos > |fmt| || At(fmt, m.pos) == NUL
    ensures Scan(fmt, args, m) == if m.pos > |fmt| then Overreads else Done(m.out)
  {
  }

  /** format_trans: the loop of the source, with the two outcomes that end no run of it made visible. */
  method FormatTrans(fmt: string, args: seq<string>) returns (r: Outcome)
    ensures r == Scan(fmt, args, START)
  {
    hide Scan, TrueFalse, ToShort, IsBool, DigitOf, IsDigit;
    var sRet := "";
    var isPlaceHolder, isType, isBracket := false, false, false;
    var sType := "";
    var nIndex, nArgsIdx := -1, 0;
    var pos := 0;

    while pos <= |fmt| && At(fmt, pos) != NUL
      invariant Scan(fmt, args, Machine(pos, sRet, isPlaceHolder, isType, isBracket, sType, nIndex, nArgsIdx))
        == Scan(fmt, args, START)
      decreases |fmt| + 1 - pos
    {
      ScanStep(fmt, args, Machine(pos, sRet, isPlaceHolder, isType, isBracket, sType, nIndex, nArgsIdx));
      if isBracket {
        if At(fmt, pos) == '}' {
          pos := pos + 1;
        }
        isBracket, isPlaceHolder := false, false;
        if At(fmt, pos) == '}' {
          sRet := sRet + "{}";
          pos := pos + 1;
          continue;
        } else {
          sRet := sRet + "{";
        }
      }

      if isPlaceHolder && isType {
        if At(fmt, pos) != '{' && At(fmt, pos) != '}' {
          sType := sType + [At(fmt, pos)];
          pos := pos + 1;
          continue;
        }
        if At(fmt, pos) == '}' {
          if IsBool(sType) {
            if nIndex == -1 {
              if InRange(args, nArgsIdx) {
                sRet := sRet + TrueFalse(args[nArgsIdx]);
                nArgsIdx := ToShort(nArgsIdx + 1);
                pos := pos + 1;
                isPlaceHolder, isType, sType := false, false, "";
                continue;
              } else {
                isPlaceHolder, isType, sType := false, false, "";
                pos := pos + 1;
              }
            } else {
              if InRange(args, nIndex) {
                sRet := sRet + TrueFalse(args[nIndex]);
                pos := pos + 1;
                isPlaceHolder, nIndex, sType := false, -1, "";
                continue;
              } else {
                nIndex, isType, sType, isPlaceHolder := -1, false, "", false;
                pos := pos + 1;
              }
            }
          } else {
            nIndex, sType, isPlaceHolder, isType := -1, "", false, false;
            pos := pos + 1;
          }
        }
      }

      if isPlaceHolder {
        if At(fmt, pos) == '{' {
          isBracket := true;
          pos := pos + 1;
          continue;
        } else if At(fmt, pos) == '}' {
          if !isType && nIndex == -1 {
            if InRange(args, nArgsIdx) {
              sRet := sRet + args[nArgsIdx];
              nArgsIdx := ToShort(nArgsIdx + 1);
              pos := pos + 1;
              isPlaceHolder := false;
              continue;
            } else {
              isPlaceHolder := false;
              pos := pos + 1;
            }
          } else if !isType && nIndex > -1 {
            if InRange(args, nIndex) {
              sRet := sRet + args[nIndex];
              pos := pos + 1;
              isPlaceHolder, nIndex := false, -1;
              continue;
            } else {
              nIndex, isPlaceHolder := -1, false;
              pos := pos + 1;
            }
          } else {
            return Hangs; // nothing has changed
          }
        } else {
          if At(fmt, pos) == ':' {
            isType := true;
            pos := pos + 1;
          } else if IsDigit(At(fmt, pos)) {
            var nIdx := DigitOf(At(fmt, pos));
            nIndex := if nIndex == -1 then nIdx else ToShort(nIndex * 10 + nIdx);
            pos := pos + 1;
            continue;
          } else {
            return Hangs; // nothing has changed
          }
        }
      } else {
        if At(fmt, pos) == '{' {
          isPlaceHolder := true;
          pos := pos + 1;
        } else {
          sRet := sRet + [At(fmt, pos)];
          pos := pos + 1;
        }
      }
    }

    ScanStops(fmt, args, Machine(pos, sRet, isPlaceHolder, isType, isBracket, sType, nIndex, nArgsIdx));
    return if pos > |fmt| then Overreads else Done(sRet);
  }

  /** The cursor counts up and, past 32767 arguments, falls to -32768 and stays there: it is never -1. */
  lemma {:induction false} CursorNeverMinusOne(fmt: string, args: seq<string>, m: Machine)
    requires 0 <= m.cursor <= 32767 || m.cursor == -32768
    ensures var m' := Iterate(fmt, args, m); 0 <= m'.cursor <= 32767 || m'.cursor == -32768
  {
  }

  // ----- The grammar: literal characters, the escape {{}}, the slots {}, {n}, {:t}, {n:t}, and slots with a
  // stray character, which the documentation does not know.

  datatype Segment =
    | Lit(c: char)
    | Escape
    | Slot(digits: string, typ: Option<string>)
    | Stray(digits: string, c: char, rest: string)

  predicate IsSlot(seg: Segment) {
    seg.Slot? || seg.Stray?
  }

  /** The text between the braces of a slot. */
  function Inside(seg: Segment): string
    requires IsSlot(seg)
  {
    match seg
    case Slot(digits, typ) => digits + (if typ.Some? then ":" + typ.value else "")
    case Stray(digits, c, rest) => digits + [c] + rest
  }

  function Print(seg: Segment): (t: string)
    ensures |t| > 0
  {
    match seg
    case Lit(c) => [c]
    case Escape => "{{}}"
    case _ => "{" + Inside(seg) + "}"
  }

  function PrintAll(segs: seq<Segment>): string {
    if segs == [] then "" else Print(segs[0]) + PrintAll(segs[1..])
  }

  predicate AllDigits(digits: string) {
    forall i :: 0 <= i < |digits| ==> IsDigit(digits[i])
  }

  predicate TypeText(t: string) {
    forall i :: 0 <= i < |t| ==> t[i] != '{' && t[i] != '}' && t[i] != NUL
  }

  predicate Unknown(c: char) {
    c !in {'{', '}', ':', NUL} && !IsDigit(c)
  }

  predicate WellFormed(seg: Segment) {
    match seg
    case Lit(c) => c != '{' && c != NUL
    case Escape => true
    case Slot(digits, typ) => AllDigits(digits) && (typ.Some? ==> TypeText(typ.value))
    case Stray(digits, c, rest) => AllDigits(digits) && Unknown(c) && TypeText(rest)
  }

  predicate AllWellFormed(segs: seq<Segment>) {
    forall i :: 0 <= i < |segs| ==> WellFormed(segs[i])
  }

  // ----- The documented meaning: each slot stands for its argument, automatic ones from left to right.

  function Value(digits: string): int {
    if digits == "" then 0 else 10 * Value(digits[..|digits| - 1]) + DigitOf(digits[|digits| - 1])
  }

  predicate Documented(segs: seq<Segment>) {
    forall i :: 0 <= i < |segs| ==> WellFormed(segs[i]) && !segs[i].Stray?
  }

  predicate IsEffective(seg: Segment) {
    seg.Slot? && (seg.typ.Some? ==> IsBool(seg.typ.value))
  }

  predicate IsAutomatic(seg: Segment) {
    IsEffective(seg) && seg.digits == ""
  }

  function AutoCount(segs: seq<Segment>): nat {
    if segs == [] then 0 else (if IsAutomatic(segs[0]) then 1 else 0) + AutoCount(segs[1..])
  }

  function Argument(args: seq<string>, i: int, boolean: bool): string {
    if !InRange(args, i) then "" else if boolean then TrueFalse(args[i]) else args[i]
  }

  /** The number of the argument that a slot stands for. */
  function Place(seg: Segment, cursor: nat): int
    requires seg.Slot?
  {
    if seg.digits == "" then cursor else Value(seg.digits)
  }

  function Piece(seg: Segment, args: seq<string>, cursor: nat): string {
    match seg
    case Lit(c) => [c]
    case Escape => "{}"
    case _ => if !IsEffective(seg) then "" else Argument(args, Place(seg, cursor), seg.typ.Some?)
  }

  function NextCursor(seg: Segment, args: seq<string>, cursor: nat): nat {
    if IsAutomatic(seg) && InRange(args, cursor) then cursor + 1 else cursor
  }

  function Render(segs: seq<Segment>, args: seq<string>, cursor: nat): string {
    if segs == [] then ""
    else Piece(segs[0], args, cursor) + Render(segs[1..], args, NextCursor(segs[0], args, cursor))
  }

  // ----- What the loop makes of the same segments. An in-range {n:b} leaves isType set, and the next
  // slot is then read as a type text; unless that text is b, the slot prints nothing and clears the flag.

  /** The index that the loop computes: a short that wraps, and that starts anew from -1. */
  function Wrapped(digits: string): (w: int)
    ensures AllDigits(digits) ==> -32768 <= w <= 32767
  {
    if digits == "" then -1
    else
      var w, d := Wrapped(digits[..|digits| - 1]), DigitOf(digits[|digits| - 1]);
      if w == -1 then d else ToShort(w * 10 + d)
  }

  /** How the loop uses a slot: it stops advancing, drops the slot, or shows an argument (-1: the next one). */
  datatype Use = Stops | Drops | Shows(index: int, boolean: bool)

  function UseOf(seg: Segment, sticky: bool): Use
    requires IsSlot(seg)
  {
    if sticky then (if IsBool(Inside(seg)) then Shows(-1, true) else Drops)
    else
      match seg
      case Stray(_, _, _) => Stops
      case Slot(digits, None) => if Wrapped(digits) < -1 then Stops else Shows(Wrapped(digits), false)
      case Slot(digits, Some(t)) => if IsBool(t) then Shows(Wrapped(digits), true) else Drops
  }

  function Chosen(use: Use, cursor: int): int
    requires use.Shows?
  {
    if use.index == -1 then cursor else use.index
  }

  function LoopPiece(use: Use, args: seq<string>, cursor: int): string {
    if use.Shows? then Argument(args, Chosen(use, cursor), use.boolean) else ""
  }

  function LoopCursor(use: Use, args: seq<string>, cursor: int): int {
    if use.Shows? && use.index == -1 && InRange(args, cursor) then ToShort(cursor + 1) else cursor
  }

  predicate NextSticky(use: Use, args: seq<string>) {
    use.Shows? && use.boolean && use.index != -1 && InRange(args, use.index)
  }

  /** A dropped slot, and a boolean one without an argument, fall through into the literal branch. */
  predicate FallsThrough(use: Use, args: seq<string>, cursor: int) {
    use.Drops? || (use.Shows? && use.boolean && !InRange(args, Chosen(use, cursor)))
  }

  function Meaning(segs: seq<Segment>, args: seq<string>, out: string, sticky: bool, cursor: int): Outcome {
    if segs == [] then Done(out)
    else
      match segs[0]
      case Lit(c) => Meaning(segs[1..], args, out + [c], sticky, cursor)
      case Escape => Meaning(segs[1..], args, out + "{}", sticky, cursor)
      case _ =>
        var use := UseOf(segs[0], sticky);
        if use.Stops? then Hangs
        else if FallsThrough(use, args, cursor) && |segs| == 1 then Overreads
        else
          Meaning(segs[1..], args, out + LoopPiece(use, args, cursor), NextSticky(use, args),
                  LoopCursor(use, args, cursor))
  }

  /** The state of the loop between two segments. */
  function Boundary(pos: nat, out: string, sticky: bool, cursor: int): Machine {
    Machine(pos, out, false, sticky, false, "", -1, cursor)
  }

  predicate Occurs(fmt: string, pos: nat, t: string) {
    pos + |t| <= |fmt| && fmt[pos..pos + |t|] == t
  }

  lemma {:induction false} OccursTail(fmt: string, pos: nat, a: string, b: string)
    requires Occurs(fmt, pos, a + b)
    ensures Occurs(fmt, pos, a) && Occurs(fmt, pos + |a|, b)
  {
    assert fmt[pos..pos + |a + b|][..|a|] == fmt[pos..pos + |a|];
    assert fmt[pos..pos + |a + b|][|a|..] == fmt[pos + |a|..pos + |a| + |b|];
    assert (a + b)[..|a|] == a && (a + b)[|a|..] == b;
  }

  lemma {:induction false} OccursFirst(fmt: string, pos: nat, t: string)
    requires Occurs(fmt, pos, t) && t != ""
    ensures pos < |fmt| && fmt[pos] == t[0]
  {
    assert fmt[pos..pos + |t|][0] == t[0];
  }

  lemma {:induction false} Reassociate(a: string, b: string, c: string)
    ensures (a + b) + c == a + (b + c)
  {
  }

  // ----- Single iterations

  lemma {:induction false} OpenStep(fmt: string, args: seq<string>, m: Machine)
    requires !m.placeHolder && !m.bracket && At(fmt, m.pos) == '{'
    ensures Scan(fmt, args, m) == Scan(fmt, args, m.(pos := m.pos + 1, placeHolder := true))
  {
  }

  lemma {:induction false} LiteralStep(fmt: string, args: seq<string>, m: Machine)
    requires !m.placeHolder && !m.bracket && m.pos < |fmt| && fmt[m.pos] != '{' && fmt[m.pos] != NUL
    ensures Scan(fmt, args, m) == Scan(fmt, args, m.(pos := m.pos + 1, out := m.out + [fmt[m.pos]]))
  {
  }

  lemma {:induction false} DigitStep(fmt: string, args: seq<string>, m: Machine)
    requires m.placeHolder && !m.isType && !m.bracket && m.pos < |fmt| && IsDigit(fmt[m.pos])
    ensures var d := DigitOf(fmt[m.pos]);
      Scan(fmt, args, m) == Scan(fmt, args,
        m.(pos := m.pos + 1, index := if m.index == -1 then d else ToShort(m.index * 10 + d)))
  {
  }

  lemma {:induction false} ColonStep(fmt: string, args: seq<string>, m: Machine)
    requires m.placeHolder && !m.isType && !m.bracket && At(fmt, m.pos) == ':'
    ensures Scan(fmt, args, m) == Scan(fmt, args, m.(pos := m.pos + 1, isType := true))
  {
  }

  /** An unknown character in a slot without a type stops the loop from advancing, wherever the slot stands. */
  lemma {:induction false} UnknownCharacterHangs(fmt: string, args: seq<string>, m: Machine)
    requires m.placeHolder && !m.isType && !m.bracket && m.pos < |fmt| && Unknown(fmt[m.pos])
    ensures Scan(fmt, args, m) == Hangs
  {
  }

  lemma {:induction false} TypeStep(fmt: string, args: seq<string>, m: Machine)
    requires m.placeHolder && m.isType && !m.bracket
    requires m.pos < |fmt| && fmt[m.pos] != '{' && fmt[m.pos] != '}' && fmt[m.pos] != NUL
    ensures Scan(fmt, args, m) == Scan(fmt, args, m.(pos := m.pos + 1, typ := m.typ + [fmt[m.pos]]))
  {
  }

  /** The closing brace of a slot without a type stops the loop when the index is below -1. */
  lemma {:induction false} NegativeIndexHangs(fmt: string, args: seq<string>, m: Machine)
    requires m.placeHolder && !m.isType && !m.bracket && m.index < -1 && At(fmt, m.pos) == '}'
    ensures Scan(fmt, args, m) == Hangs
  {
  }

  /** Closing an untyped slot: the argument if there is one, and always the state between segments. */
  lemma {:induction false} CloseUntyped(fmt: string, args: seq<string>, m: Machine)
    requires m.placeHolder && !m.isType && !m.bracket && m.typ == "" && m.index >= -1
    requires At(fmt, m.pos) == '}'
    ensures var use := Shows(m.index, false);
      Scan(fmt, args, m) == Scan(fmt, args,
        Boundary(m.pos + 1, m.out + LoopPiece(use, args, m.cursor), false, LoopCursor(use, args, m.cursor)))
  {
    assert m.out + "" == m.out;
  }

  /** Closing a boolean slot whose argument exists; with an explicit index isType stays set. */
  lemma {:induction false} CloseBoolean(fmt: string, args: seq<string>, m: Machine)
    requires m.placeHolder && m.isType && !m.bracket && IsBool(m.typ) && At(fmt, m.pos) == '}'
    requires InRange(args, Chosen(Shows(m.index, true), m.cursor))
    ensures var use := Shows(m.index, true);
      Scan(fmt, args, m) == Scan(fmt, args,
        Boundary(m.pos + 1, m.out + LoopPiece(use, args, m.cursor), NextSticky(use, args),
                 LoopCursor(use, args, m.cursor)))
  {
  }

  /** Closing any other typed slot: the iteration goes on with the next character, so that it reads past
      the terminator when there is none. */
  lemma {:induction false} CloseIgnored(fmt: string, args: seq<string>, m: Machine)
    requires m.placeHolder && m.isType && !m.bracket && m.pos < |fmt| && fmt[m.pos] == '}'
    requires IsBool(m.typ) ==> !InRange(args, Chosen(Shows(m.index, true), m.cursor))
    requires m.pos + 1 < |fmt| ==> fmt[m.pos + 1] != NUL
    ensures Scan(fmt, args, m)
         == if m.pos + 1 == |fmt| then Overreads else Scan(fmt, args, Boundary(m.pos + 1, m.out, false, m.cursor))
  {
    var b := Boundary(m.pos + 1, m.out, false, m.cursor);
    assert TypeStage(fmt, args, m) == (b, false);
    assert Iterate(fmt, args, m) == PlainStage(fmt, args, b) == Iterate(fmt, args, b);
  }

  // ----- Runs of iterations

  /** Reading the digits of a slot from the k-th on. */
  lemma {:induction false} ScanDigits(fmt: string, args: seq<string>, m: Machine, digits: string, k: nat)
    requires k <= |digits| && AllDigits(digits) && Occurs(fmt, m.pos, digits[k..])
    requires m.placeHolder && !m.isType && !m.bracket && m.index == Wrapped(digits[..k])
    ensures Scan(fmt, args, m) == Scan(fmt, args, m.(pos := m.pos + |digits| - k, index := Wrapped(digits)))
    decreases |digits| - k
  {
    hide Scan;
    if k < |digits| {
      assert digits[k..] == [digits[k]] + digits[k + 1..];
      OccursTail(fmt, m.pos, [digits[k]], digits[k + 1..]);
      assert fmt[m.pos] == digits[k];
      assert digits[..k + 1][..k] == digits[..k];
      DigitStep(fmt, args, m);
      ScanDigits(fmt, args, m.(pos := m.pos + 1, index := Wrapped(digits[..k + 1])), digits, k + 1);
    } else {
      assert digits[..k] == digits;
    }
  }

  /** Collecting the characters of a type text. */
  lemma {:induction false} ScanType(fmt: string, args: seq<string>, m: Machine, t: string)
    requires TypeText(t) && Occurs(fmt, m.pos, t)
    requires m.placeHolder && m.isType && !m.bracket
    ensures Scan(fmt, args, m) == Scan(fmt, args, m.(pos := m.pos + |t|, typ := m.typ + t))
    decreases |t|
  {
    hide Scan;
    if t != "" {
      assert t == [t[0]] + t[1..];
      OccursTail(fmt, m.pos, [t[0]], t[1..]);
      assert fmt[m.pos] == t[0];
      TypeStep(fmt, args, m);
      ScanType(fmt, args, m.(pos := m.pos + 1, typ := m.typ + [t[0]]), t[1..]);
      assert m.typ + [t[0]] + t[1..] == m.typ + t;
    } else {
      assert m.typ + t == m.typ;
    }
  }

  /** The end of a type text: the use that the text and the index make up. */
  lemma {:induction false} ScanClose(fmt: string, args: seq<string>, m: Machine)
    requires m.placeHolder && m.isType && !m.bracket && m.pos < |fmt| && fmt[m.pos] == '}'
    requires m.pos + 1 < |fmt| ==> fmt[m.pos + 1] != NUL
    ensures ClosesAs(fmt, args, m, if IsBool(m.typ) then Shows(m.index, true) else Drops)
  {
    hide Scan;
    if IsBool(m.typ) && InRange(args, Chosen(Shows(m.index, true), m.cursor)) {
      CloseBoolean(fmt, args, m);
    } else {
      CloseIgnored(fmt, args, m);
      assert m.out + "" == m.out;
    }
  }

  /** The scan comes to what the use of a slot says, one character on. */
  ghost predicate ClosesAs(fmt: string, args: seq<string>, m: Machine, use: Use) {
    Scan(fmt, args, m) == AfterUse(fmt, args, use, m.pos + 1, m.out, m.cursor)
  }

  function AfterUse(fmt: string, args: seq<string>, use: Use, end: nat, out: string, cursor: int): Outcome {
    if use.Stops? then Hangs
    else if FallsThrough(use, args, cursor) && end == |fmt| then Overreads
    else
      Scan(fmt, args, Boundary(end, out + LoopPiece(use, args, cursor), NextSticky(use, args),
                               LoopCursor(use, args, cursor)))
  }

  // ----- Whole segments

  /** What the scan of one segment comes to, when the segment ends at a boundary of the format. */
  function ScanAfter(
      fmt: string, args: seq<string>, seg: Segment, pos: nat, out: string, sticky: bool, cursor: int): Outcome {
    var end := pos + |Print(seg)|;
    match seg
    case Lit(c) => Scan(fmt, args, Boundary(end, out + [c], sticky, cursor))
    case Escape => Scan(fmt, args, Boundary(end, out + "{}", sticky, cursor))
    case _ => AfterUse(fmt, args, UseOf(seg, sticky), end, out, cursor)
  }

  ghost predicate ScansAs(
      fmt: string, args: seq<string>, seg: Segment, pos: nat, out: string, sticky: bool, cursor: int) {
    Scan(fmt, args, Boundary(pos, out, sticky, cursor)) == ScanAfter(fmt, args, seg, pos, out, sticky, cursor)
  }

  predicate Placed(fmt: string, seg: Segment, pos: nat) {
    && WellFormed(seg) && Occurs(fmt, pos, Print(seg))
    && (pos + |Print(seg)| < |fmt| ==> fmt[pos + |Print(seg)|] != NUL)
  }

  lemma {:induction false} ScanEscape(
      fmt: string, args: seq<string>, pos: nat, out: string, sticky: bool, cursor: int)
    requires Placed(fmt, Escape, pos)
    ensures ScansAs(fmt, args, Escape, pos, out, sticky, cursor)
  {
    assert fmt[pos..pos + 4] == "{{}}";
    assert fmt[pos] == '{' && fmt[pos + 1] == '{' && fmt[pos + 2] == '}' && fmt[pos + 3] == '}';
    var m0 := Boundary(pos, out, sticky, cursor);
    var m1 := m0.(pos := pos + 1, placeHolder := true);
    OpenStep(fmt, args, m0);
    var m2 := m1.(pos := pos + 2, bracket := true);
    assert Iterate(fmt, args, m1) == m2;
    assert Iterate(fmt, args, m2) == Boundary(pos + 4, out + "{}", sticky, cursor);
  }

  lemma {:induction false} InsideIsTypeText(seg: Segment)
    requires IsSlot(seg) && WellFormed(seg)
    ensures TypeText(Inside(seg))
  {
  }

  lemma {:induction false} UntypedInside(digits: string)
    ensures Inside(Slot(digits, None)) == digits && (WellFormed(Slot(digits, None)) ==> AllDigits(digits))
  {
  }

  lemma {:induction false} TypedInside(digits: string, t: string)
    ensures Inside(Slot(digits, Some(t))) == digits + (":" + t)
    ensures |Inside(Slot(digits, Some(t)))| == |digits| + 1 + |t|
    ensures WellFormed(Slot(digits, Some(t))) ==> AllDigits(digits) && TypeText(t)
  {
  }

  lemma {:induction false} StrayInside(digits: string, c: char, rest: string)
    ensures Inside(Stray(digits, c, rest)) == digits + ([c] + rest)
    ensures WellFormed(Stray(digits, c, rest)) ==> AllDigits(digits) && Unknown(c)
  {
    Reassociate(digits, [c], rest);
  }

  /** The braces of a slot that stands at a position, and the text between them. */
  lemma {:induction false} SlotParts(fmt: string, seg: Segment, pos: nat)
    requires IsSlot(seg) && Placed(fmt, seg, pos)
    ensures var t := Inside(seg); var end := pos + 1 + |t|;
      && |Print(seg)| == |t| + 2 && WellFormed(seg) && TypeText(t)
      && pos < |fmt| && fmt[pos] == '{' && Occurs(fmt, pos + 1, t) && end < |fmt| && fmt[end] == '}'
      && (end + 1 < |fmt| ==> fmt[end + 1] != NUL)
  {
    hide Occurs, Inside, WellFormed, TypeText;
    InsideIsTypeText(seg);
    Braces(fmt, Inside(seg), pos);
  }

  lemma {:induction false} Braces(fmt: string, t: string, pos: nat)
    requires Occurs(fmt, pos, "{" + t + "}")
    ensures |"{" + t + "}"| == |t| + 2
    ensures var end := pos + 1 + |t|;
      pos < |fmt| && fmt[pos] == '{' && Occurs(fmt, pos + 1, t) && end < |fmt| && fmt[end] == '}'
  {
    hide Occurs;
    OccursTail(fmt, pos, "{" + t, "}");
    OccursTail(fmt, pos, "{", t);
    OccursFirst(fmt, pos, "{");
    OccursFirst(fmt, pos + 1 + |t|, "}");
  }

  /** After an in-range {n:b} a slot is read as a type. */
  lemma {:induction false} ScanSwallowed(
      fmt: string, args: seq<string>, seg: Segment, pos: nat, out: string, cursor: int)
    requires IsSlot(seg) && Placed(fmt, seg, pos)
    ensures ScansAs(fmt, args, seg, pos, out, true, cursor)
  {
    hide Scan, Inside, IsBool, AfterUse, TypeText, Occurs, Placed, Print;
    SlotParts(fmt, seg, pos);
    var t := Inside(seg);
    var m0 := Boundary(pos, out, true, cursor);
    var m1 := m0.(pos := pos + 1, placeHolder := true);
    OpenStep(fmt, args, m0);
    ScanType(fmt, args, m1, t);
    assert m1.typ + t == t;
    ScanClose(fmt, args, m1.(pos := pos + 1 + |t|, typ := t));
  }

  /** The loop inside a slot, after its opening brace and its digits. */
  function AfterDigits(digits: string, pos: nat, out: string, cursor: int): Machine {
    Machine(pos + 1 + |digits|, out, true, false, false, "", Wrapped(digits), cursor)
  }

  lemma {:induction false} ScanHead(
      fmt: string, args: seq<string>, digits: string, pos: nat, out: string, cursor: int)
    requires AllDigits(digits) && pos < |fmt| && fmt[pos] == '{' && Occurs(fmt, pos + 1, digits)
    ensures Scan(fmt, args, Boundary(pos, out, false, cursor)) == Scan(fmt, args, AfterDigits(digits, pos, out, cursor))
  {
    hide Scan, Occurs, AllDigits;
    var m := Boundary(pos, out, false, cursor);
    OpenStep(fmt, args, m);
    assert digits[0..] == digits;
    ScanDigits(fmt, args, m.(pos := pos + 1, placeHolder := true), digits, 0);
  }

  lemma {:induction false} ScanUntyped(
      fmt: string, args: seq<string>, digits: string, pos: nat, out: string, cursor: int)
    requires Placed(fmt, Slot(digits, None), pos)
    ensures ScansAs(fmt, args, Slot(digits, None), pos, out, false, cursor)
  {
    hide Scan, Wrapped, AllDigits, Occurs, Placed, Print, LoopPiece, LoopCursor, Inside, WellFormed;
    SlotParts(fmt, Slot(digits, None), pos);
    UntypedInside(digits);
    ScanHead(fmt, args, digits, pos, out, cursor);
    var m := AfterDigits(digits, pos, out, cursor);
    if m.index < -1 {
      NegativeIndexHangs(fmt, args, m);
    } else {
      CloseUntyped(fmt, args, m);
    }
  }

  lemma {:induction false} TypedParts(fmt: string, digits: string, t: string, pos: nat)
    requires Occurs(fmt, pos, digits + (":" + t))
    ensures var colon := pos + |digits|;
      Occurs(fmt, pos, digits) && colon < |fmt| && fmt[colon] == ':' && Occurs(fmt, colon + 1, t)
  {
    hide Occurs;
    OccursTail(fmt, pos, digits, ":" + t);
    OccursTail(fmt, pos + |digits|, ":", t);
    OccursFirst(fmt, pos + |digits|, ":");
  }

  lemma {:induction false} ScanTyped(
      fmt: string, args: seq<string>, digits: string, t: string, pos: nat, out: string, cursor: int)
    requires Placed(fmt, Slot(digits, Some(t)), pos)
    ensures ScansAs(fmt, args, Slot(digits, Some(t)), pos, out, false, cursor)
  {
    hide Scan, Wrapped, AllDigits, TypeText, Occurs, Placed, Print, IsBool, AfterUse, Inside, WellFormed;
    SlotParts(fmt, Slot(digits, Some(t)), pos);
    TypedInside(digits, t);
    TypedParts(fmt, digits, t, pos + 1);
    ScanHead(fmt, args, digits, pos, out, cursor);
    var m := AfterDigits(digits, pos, out, cursor);
    ColonStep(fmt, args, m);
    var m' := m.(pos := m.pos + 1, isType := true);
    ScanType(fmt, args, m', t);
    assert m'.typ + t == t;
    ScanClose(fmt, args, m'.(pos := m'.pos + |t|, typ := t));
  }

  lemma {:induction false} ScanStray(
      fmt: string, args: seq<string>, digits: string, c: char, rest: string, pos: nat, out: string, cursor: int)
    requires Placed(fmt, Stray(digits, c, rest), pos)
    ensures ScansAs(fmt, args, Stray(digits, c, rest), pos, out, false, cursor)
  {
    hide Scan, Wrapped, AllDigits, Occurs, Placed, Print, Inside, WellFormed, Unknown;
    SlotParts(fmt, Stray(digits, c, rest), pos);
    StrayInside(digits, c, rest);
    OccursTail(fmt, pos + 1, digits, [c] + rest);
    OccursFirst(fmt, pos + 1 + |digits|, [c] + rest);
    ScanHead(fmt, args, digits, pos, out, cursor);
    UnknownCharacterHangs(fmt, args, AfterDigits(digits, pos, out, cursor));
  }

  lemma {:induction false} ScanSegment(
      fmt: string, args: seq<string>, seg: Segment, pos: nat, out: string, sticky: bool, cursor: int)
    requires Placed(fmt, seg, pos)
    ensures ScansAs(fmt, args, seg, pos, out, sticky, cursor)
  {
    hide Scan;
    if IsSlot(seg) && sticky {
      ScanSwallowed(fmt, args, seg, pos, out, cursor);
    } else {
      match seg
      case Lit(c) =>
        assert fmt[pos..pos + 1][0] == c;
        LiteralStep(fmt, args, Boundary(pos, out, sticky, cursor));
      case Escape => ScanEscape(fmt, args, pos, out, sticky, cursor);
      case Slot(digits, Some(t)) => ScanTyped(fmt, args, digits, t, pos, out, cursor);
      case Slot(digits, None) => ScanUntyped(fmt, args, digits, pos, out, cursor);
      case Stray(digits, c, rest) => ScanStray(fmt, args, digits, c, rest, pos, out, cursor);
    }
  }

  lemma {:induction false} ScanEnd(
      fmt: string, args: seq<string>, pos: nat, out: string, sticky: bool, cursor: int)
    requires pos == |fmt|
    ensures Scan(fmt, args, Boundary(pos, out, sticky, cursor)) == Done(out)
  {
  }

  lemma {:induction false} FirstCharIsNoTerminator(seg: Segment)
    requires WellFormed(seg)
    ensures Print(seg)[0] != NUL
  {
  }

  lemma {:induction false} NextPlaced(fmt: string, segs: seq<Segment>, pos: nat)
    requires segs != [] && AllWellFormed(segs) && pos <= |fmt| && fmt[pos..] == PrintAll(segs)
    ensures var end := pos + |Print(segs[0])|;
      && Placed(fmt, segs[0], pos) && end <= |fmt| && fmt[end..] == PrintAll(segs[1..])
      && (end == |fmt| <==> |segs| == 1)
  {
    hide Print;
    var rest := segs[1..];
    assert Print(segs[0]) + PrintAll(rest) == fmt[pos..pos + |Print(segs[0]) + PrintAll(rest)|];
    OccursTail(fmt, pos, Print(segs[0]), PrintAll(rest));
    if rest != [] {
      FirstCharIsNoTerminator(rest[0]);
      assert PrintAll(rest)[0] == Print(rest[0])[0];
    }
  }

  /** From any boundary on, the loop gives the rest of the segments the meaning above. */
  lemma {:induction false} ScanSegments(
      fmt: string, args: seq<string>, segs: seq<Segment>, pos: nat, out: string, sticky: bool, cursor: int)
    requires pos <= |fmt| && fmt[pos..] == PrintAll(segs) && AllWellFormed(segs)
    ensures Scan(fmt, args, Boundary(pos, out, sticky, cursor)) == Meaning(segs, args, out, sticky, cursor)
    decreases |segs|
  {
    hide Scan, Print, LoopPiece, LoopCursor, FallsThrough, NextSticky, UseOf, Boundary, WellFormed;
    if segs == [] {
      ScanEnd(fmt, args, pos, out, sticky, cursor);
    } else {
      var seg, rest := segs[0], segs[1..];
      var end := pos + |Print(seg)|;
      NextPlaced(fmt, segs, pos);
      ScanSegment(fmt, args, seg, pos, out, sticky, cursor);
      match seg
      case Lit(c) => ScanSegments(fmt, args, rest, end, out + [c], sticky, cursor);
      case Escape => ScanSegments(fmt, args, rest, end, out + "{}", sticky, cursor);
      case _ =>
        var use := UseOf(seg, sticky);
        if !use.Stops? && !(FallsThrough(use, args, cursor) && |segs| == 1) {
          ScanSegments(fmt, args, rest, end, out + LoopPiece(use, args, cursor), NextSticky(use, args),
                       LoopCursor(use, args, cursor));
        }
    }
  }

  /** The scan of any list of segments, for any arguments. */
  lemma {:induction false} ScanOfPrinted(segs: seq<Segment>, args: seq<string>)
    requires AllWellFormed(segs)
    ensures Scan(PrintAll(segs), args, START) == Meaning(segs, args, "", false, 0)
  {
    ScanSegments(PrintAll(segs), args, segs, 0, "", false, 0);
  }

  // ----- When the scan ends

  /** The flag and the cursor of the loop after a list of segments that does not stop it. */
  function After(segs: seq<Segment>, args: seq<string>, sticky: bool, cursor: int): (bool, int) {
    if segs == [] then (sticky, cursor)
    else if !IsSlot(segs[0]) then After(segs[1..], args, sticky, cursor)
    else
      var use := UseOf(segs[0], sticky);
      After(segs[1..], args, NextSticky(use, args), LoopCursor(use, args, cursor))
  }

  /** Segment i is a slot that stops the loop: it is not swallowed, and it has a stray character or, without a
      type, an index that wraps below -1. */
  predicate StopsAt(segs: seq<Segment>, args: seq<string>, sticky: bool, cursor: int, i: nat)
    requires i < |segs|
  {
    IsSlot(segs[i]) && UseOf(segs[i], After(segs[..i], args, sticky, cursor).0).Stops?
  }

  ghost predicate StopsSomewhere(segs: seq<Segment>, args: seq<string>, sticky: bool, cursor: int) {
    exists i :: 0 <= i < |segs| && StopsAt(segs, args, sticky, cursor, i)
  }

  predicate LastFallsThrough(segs: seq<Segment>, args: seq<string>, sticky: bool, cursor: int) {
    segs != [] && IsSlot(segs[|segs| - 1]) &&
    var (s, c) := After(segs[..|segs| - 1], args, sticky, cursor);
    FallsThrough(UseOf(segs[|segs| - 1], s), args, c)
  }

  /** The flag and the cursor after one segment. */
  function Stepped(seg: Segment, args: seq<string>, sticky: bool, cursor: int): (bool, int) {
    if !IsSlot(seg) then (sticky, cursor)
    else var use := UseOf(seg, sticky); (NextSticky(use, args), LoopCursor(use, args, cursor))
  }

  lemma {:induction false} StopsUnfold(segs: seq<Segment>, args: seq<string>, sticky: bool, cursor: int)
    requires segs != []
    ensures var (s, c) := Stepped(segs[0], args, sticky, cursor);
      && (StopsSomewhere(segs, args, sticky, cursor) <==>
          (IsSlot(segs[0]) && UseOf(segs[0], sticky).Stops?) || StopsSomewhere(segs[1..], args, s, c))
      && (LastFallsThrough(segs, args, sticky, cursor) <==>
          if |segs| == 1 then IsSlot(segs[0]) && FallsThrough(UseOf(segs[0], sticky), args, cursor)
          else LastFallsThrough(segs[1..], args, s, c))
  {
    hide UseOf, FallsThrough, NextSticky, LoopCursor, IsSlot;
    var rest := segs[1..];
    var (s, c) := Stepped(segs[0], args, sticky, cursor);
    assert segs[..0] == [];
    forall i | 0 < i < |segs|
      ensures StopsAt(segs, args, sticky, cursor, i) <==> StopsAt(rest, args, s, c, i - 1)
    {
      assert segs[..i][1..] == rest[..i - 1];
    }
    if i :| 0 <= i < |rest| && StopsAt(rest, args, s, c, i) {
      assert StopsAt(segs, args, sticky, cursor, i + 1);
    }
    assert StopsAt(segs, args, sticky, cursor, 0) <==> IsSlot(segs[0]) && UseOf(segs[0], sticky).Stops?;
    assert segs[..|segs| - 1] == [] || segs[..|segs| - 1][1..] == rest[..|rest| - 1];
  }

  lemma {:induction false} MeaningEnds(
      segs: seq<Segment>, args: seq<string>, out: string, sticky: bool, cursor: int)
    ensures var r := Meaning(segs, args, out, sticky, cursor);
      && (r.Hangs? <==> StopsSomewhere(segs, args, sticky, cursor))
      && (r.Overreads? <==>
          !StopsSomewhere(segs, args, sticky, cursor) && LastFallsThrough(segs, args, sticky, cursor))
    decreases |segs|
  {
    hide FallsThrough, LoopPiece, NextSticky, UseOf, LoopCursor, StopsSomewhere, LastFallsThrough;
    if segs == [] {
      assert !StopsSomewhere([], args, sticky, cursor) && !LastFallsThrough([], args, sticky, cursor) by {
        NothingStops(args, sticky, cursor);
      }
    } else {
      var seg, rest := segs[0], segs[1..];
      var (s, c) := Stepped(seg, args, sticky, cursor);
      StopsUnfold(segs, args, sticky, cursor);
      NothingStops(args, s, c);
      match seg
      case Lit(c) => MeaningEnds(rest, args, out + [c], sticky, cursor);
      case Escape => MeaningEnds(rest, args, out + "{}", sticky, cursor);
      case _ =>
        var use := UseOf(seg, sticky);
        MeaningEnds(rest, args, out + LoopPiece(use, args, cursor), s, c);
    }
  }

  lemma {:induction false} NothingStops(args: seq<string>, sticky: bool, cursor: int)
    ensures !StopsSomewhere([], args, sticky, cursor) && !LastFallsThrough([], args, sticky, cursor)
  {
  }

  /** On the grammar the loop runs for ever exactly when a slot stops it; otherwise it ends, and it reads past
      the terminator exactly when the last segment is a slot that falls through. */
  lemma {:induction false} ScanEnds(segs: seq<Segment>, args: seq<string>)
    requires AllWellFormed(segs)
    ensures var r := Scan(PrintAll(segs), args, START);
      && (r.Hangs? <==> StopsSomewhere(segs, args, false, 0))
      && (r.Overreads? <==> !StopsSomewhere(segs, args, false, 0) && LastFallsThrough(segs, args, false, 0))
  {
    ScanOfPrinted(segs, args);
    MeaningEnds(segs, args, "", false, 0);
  }

  // ----- When the text is the documented one

  /** A short holds every index of an effective slot, and the cursor at every automatic one. */
  predicate FitsShort(segs: seq<Segment>) {
    && AutoCount(segs) <= 32768
    && forall i :: 0 <= i < |segs| && IsEffective(segs[i]) && segs[i].digits != "" ==> Value(segs[i].digits) <= 32767
  }

  lemma {:induction false} ValueIsNatural(digits: string)
    requires AllDigits(digits)
    ensures Value(digits) >= 0
  {
    if digits != "" {
      ValueIsNatural(digits[..|digits| - 1]);
    }
  }

  /** The loop's index is the written one as long as that fits a short. */
  lemma {:induction false} WrappedFits(digits: string)
    requires AllDigits(digits) && digits != "" && Value(digits) <= 32767
    ensures Wrapped(digits) == Value(digits) >= 0
  {
    var front := digits[..|digits| - 1];
    ValueIsNatural(front);
    if front != "" {
      WrappedFits(front);
    }
  }

  predicate IndexedBoolean(seg: Segment) {
    IsEffective(seg) && seg.digits != "" && seg.typ.Some?
  }

  /** No slot that should print something comes next after an indexed boolean slot. */
  ghost predicate Clean(segs: seq<Segment>) {
    forall i, j :: 0 <= i < j < |segs| && IndexedBoolean(segs[i]) && IsEffective(segs[j])
      ==> exists k :: i < k < j && segs[k].Slot?
  }

  /** No effective slot is the first slot. */
  ghost predicate StartsPlain(segs: seq<Segment>) {
    forall j :: 0 <= j < |segs| && IsEffective(segs[j]) ==> exists k :: 0 <= k < j && segs[k].Slot?
  }

  predicate Safe(segs: seq<Segment>, sticky: bool) {
    if segs == [] then true
    else if !segs[0].Slot? then Safe(segs[1..], sticky)
    else !(sticky && IsEffective(segs[0])) && Safe(segs[1..], IndexedBoolean(segs[0]))
  }

  lemma {:induction false} CleanSplits(segs: seq<Segment>)
    requires segs != []
    ensures Clean(segs) <==> Clean(segs[1..]) && (IndexedBoolean(segs[0]) ==> StartsPlain(segs[1..]))
  {
    var rest := segs[1..];
    if Clean(segs) {
      forall i, j | 0 <= i < j < |rest| && IndexedBoolean(rest[i]) && IsEffective(rest[j])
        ensures exists k :: i < k < j && rest[k].Slot?
      {
        var k :| i + 1 < k < j + 1 && segs[k].Slot?;
        assert rest[k - 1].Slot?;
      }
      if IndexedBoolean(segs[0]) {
        forall j | 0 <= j < |rest| && IsEffective(rest[j])
          ensures exists k :: 0 <= k < j && rest[k].Slot?
        {
          assert IsEffective(segs[j + 1]);
          var k :| 0 < k < j + 1 && segs[k].Slot?;
          assert rest[k - 1].Slot?;
        }
      }
    }
    if Clean(rest) && (IndexedBoolean(segs[0]) ==> StartsPlain(rest)) {
      forall i, j | 0 <= i < j < |segs| && IndexedBoolean(segs[i]) && IsEffective(segs[j])
        ensures exists k :: i < k < j && segs[k].Slot?
      {
        assert IsEffective(rest[j - 1]);
        if i == 0 {
          var k :| 0 <= k < j - 1 && rest[k].Slot?;
          assert segs[k + 1].Slot?;
        } else {
          assert IndexedBoolean(rest[i - 1]);
          var k :| i - 1 < k < j - 1 && rest[k].Slot?;
          assert segs[k + 1].Slot?;
        }
      }
    }
  }

  lemma {:induction false} StartsPlainSplits(segs: seq<Segment>)
    requires segs != []
    ensures StartsPlain(segs) <==> if segs[0].Slot? then !IsEffective(segs[0]) else StartsPlain(segs[1..])
  {
    var rest := segs[1..];
    if StartsPlain(segs) && !segs[0].Slot? {
      forall j | 0 <= j < |rest| && IsEffective(rest[j])
        ensures exists k :: 0 <= k < j && rest[k].Slot?
      {
        assert IsEffective(segs[j + 1]);
        var k :| 0 <= k < j + 1 && segs[k].Slot?;
        assert rest[k - 1].Slot?;
      }
    }
    if !segs[0].Slot? && StartsPlain(rest) {
      forall j | 0 <= j < |segs| && IsEffective(segs[j])
        ensures exists k :: 0 <= k < j && segs[k].Slot?
      {
        assert IsEffective(rest[j - 1]);
        var k :| 0 <= k < j - 1 && rest[k].Slot?;
        assert segs[k + 1].Slot?;
      }
    }
  }

  lemma {:induction false} SafeIsClean(segs: seq<Segment>, sticky: bool)
    ensures Safe(segs, sticky) <==> Clean(segs) && (sticky ==> StartsPlain(segs))
  {
    if segs != [] {
      CleanSplits(segs);
      StartsPlainSplits(segs);
      SafeIsClean(segs[1..], if segs[0].Slot? then IndexedBoolean(segs[0]) else sticky);
    }
  }

  /** The next cursors of the loop and of the documented meaning, while a short holds the latter. */
  predicate SameCursor(segs: seq<Segment>, cursor: int, c: nat) {
    AutoCount(segs) > 0 ==> cursor == c && c + AutoCount(segs) <= 32768
  }

  predicate IndicesFit(segs: seq<Segment>) {
    forall i :: 0 <= i < |segs| && IsEffective(segs[i]) && segs[i].digits != "" ==> Value(segs[i].digits) <= 32767
  }

  lemma {:induction false} InsideOfSlot(seg: Segment)
    requires seg.Slot? && WellFormed(seg)
    ensures !IsBool(Inside(seg))
  {
    if Inside(seg) != "" {
      assert IsDigit(Inside(seg)[0]) || Inside(seg)[0] == ':';
    }
  }

  /** An effective slot that fits and is not swallowed is used as documented. */
  lemma {:induction false} UseAsDocumented(seg: Segment)
    requires seg.Slot? && WellFormed(seg) && (IsEffective(seg) && seg.digits != "" ==> Value(seg.digits) <= 32767)
    ensures UseOf(seg, false) ==
      if IsEffective(seg) then Shows(if seg.digits == "" then -1 else Value(seg.digits), seg.typ.Some?) else Drops
    ensures UseOf(seg, true) == Drops
    ensures Value(seg.digits) >= 0
  {
    InsideOfSlot(seg);
    ValueIsNatural(seg.digits);
    if IsEffective(seg) && seg.digits != "" {
      WrappedFits(seg.digits);
    }
  }

  /** One slot of a safe list: the loop prints what is documented, and the rest is safe again. */
  lemma {:induction false} SafeSlot(
      segs: seq<Segment>, args: seq<string>, sticky: bool, spec: bool, cursor: int, c: nat)
    requires Documented(segs) && Safe(segs, spec) && (sticky ==> spec)
    requires IndicesFit(segs) && SameCursor(segs, cursor, c) && segs != [] && segs[0].Slot?
    ensures var seg, rest, use := segs[0], segs[1..], UseOf(segs[0], sticky);
      && !use.Stops? && LoopPiece(use, args, cursor) == Piece(seg, args, c)
      && Documented(rest) && Safe(rest, IndexedBoolean(seg)) && (NextSticky(use, args) ==> IndexedBoolean(seg))
      && IndicesFit(rest) && SameCursor(rest, LoopCursor(use, args, cursor), NextCursor(seg, args, c))
  {
    UseAsDocumented(segs[0]);
  }

  lemma {:induction false} SafeMeaning(
      segs: seq<Segment>, args: seq<string>, out: string, sticky: bool, spec: bool, cursor: int, c: nat)
    requires Documented(segs) && Safe(segs, spec) && (sticky ==> spec)
    requires IndicesFit(segs) && SameCursor(segs, cursor, c)
    ensures var r := Meaning(segs, args, out, sticky, cursor);
      !r.Hangs? && (r.Done? ==> r.text == out + Render(segs, args, c))
    decreases |segs|
  {
    hide Scan;
    if segs == [] {
      assert out + "" == out;
    } else {
      var seg, rest := segs[0], segs[1..];
      var piece, c' := Piece(seg, args, c), NextCursor(seg, args, c);
      assert (out + piece) + Render(rest, args, c') == out + (piece + Render(rest, args, c'));
      if !seg.Slot? {
        SafeMeaning(rest, args, out + piece, sticky, spec, cursor, c');
      } else {
        SafeSlot(segs, args, sticky, spec, cursor, c);
        hide Documented, Safe, IndicesFit, SameCursor, UseOf, LoopPiece, Piece, NextSticky, LoopCursor, NextCursor;
        var use := UseOf(seg, sticky);
        var s := NextSticky(use, args);
        SafeMeaning(rest, args, out + piece, s, IndexedBoolean(seg), LoopCursor(use, args, cursor), c');
      }
    }
  }

  /** Where no effective slot comes next after an indexed boolean one and all numbers fit, the loop prints the
      documented text for all arguments, unless it ends on a slot that falls through. */
  lemma {:induction false} CleanScan(segs: seq<Segment>, args: seq<string>)
    requires Documented(segs) && FitsShort(segs) && Clean(segs)
    ensures Scan(PrintAll(segs), args, START)
         == if LastFallsThrough(segs, args, false, 0) then Overreads else Done(Render(segs, args, 0))
  {
    ScanOfPrinted(segs, args);
    MeaningEnds(segs, args, "", false, 0);
    SafeIsClean(segs, false);
    SafeMeaning(segs, args, "", false, false, 0, 0);
    assert "" + Render(segs, args, 0) == Render(segs, args, 0);
  }

  /** Every slot finds its argument among n. */
  predicate Supplied(segs: seq<Segment>, n: nat) {
    && AutoCount(segs) <= n
    && forall i :: 0 <= i < |segs| && IsEffective(segs[i]) && segs[i].digits != "" ==> Value(segs[i].digits) < n
  }

  predicate Faithful(segs: seq<Segment>, args: seq<string>) {
    Scan(PrintAll(segs), args, START) == Done(Render(segs, args, 0))
  }

  predicate EndsIgnored(segs: seq<Segment>) {
    segs != [] && segs[|segs| - 1].Slot? && !IsEffective(segs[|segs| - 1])
  }

  lemma {:induction false} AutoCountSplits(a: seq<Segment>, b: seq<Segment>)
    ensures AutoCount(a + b) == AutoCount(a) + AutoCount(b)
    decreases |a|
  {
    if a == [] {
      assert a + b == b;
    } else {
      assert (a + b)[1..] == a[1..] + b;
      AutoCountSplits(a[1..], b);
    }
  }

  lemma {:induction false} CursorAfter(segs: seq<Segment>, args: seq<string>, sticky: bool, cursor: nat)
    requires Documented(segs) && IndicesFit(segs) && cursor + AutoCount(segs) <= 32767
    ensures 0 <= After(segs, args, sticky, cursor).1 <= cursor + AutoCount(segs)
    decreases |segs|
  {
    if segs != [] {
      var seg := segs[0];
      if seg.Slot? {
        UseAsDocumented(seg);
      }
      var (s, c) := Stepped(seg, args, sticky, cursor);
      CursorAfter(segs[1..], args, s, c);
    }
  }

  /** Safe lists reach their last segment without the flag, or with it before an ignored slot. */
  lemma {:induction false} StickyAfter(
      segs: seq<Segment>, last: Segment, args: seq<string>, sticky: bool, spec: bool, cursor: int)
    requires Documented(segs) && IndicesFit(segs)
    requires Safe(segs + [last], spec) && (sticky ==> spec) && IsEffective(last)
    ensures !After(segs, args, sticky, cursor).0
    decreases |segs|
  {
    if segs == [] {
      assert (segs + [last])[0] == last;
    } else {
      var seg := segs[0];
      assert (segs + [last])[1..] == segs[1..] + [last];
      if seg.Slot? {
        UseAsDocumented(seg);
      }
      var (s, c) := Stepped(seg, args, sticky, cursor);
      StickyAfter(segs[1..], last, args, s, if seg.Slot? then IndexedBoolean(seg) else spec, c);
    }
  }

  lemma {:induction false} SuppliedEndsWell(segs: seq<Segment>, args: seq<string>)
    requires Documented(segs) && FitsShort(segs) && Supplied(segs, |args|) && Safe(segs, false) && !EndsIgnored(segs)
    ensures !LastFallsThrough(segs, args, false, 0)
  {
    if segs != [] && segs[|segs| - 1].Slot? {
      var front, last := segs[..|segs| - 1], segs[|segs| - 1];
      assert front + [last] == segs;
      AutoCountSplits(front, [last]);
      assert [last][1..] == [];
      StickyAfter(front, last, args, false, false, 0);
      UseAsDocumented(last);
      if IsAutomatic(last) {
        CursorAfter(front, args, false, 0);
      }
    }
  }

  // ----- Arguments that tell the loop from the documented meaning

  /** Arguments past the range of a short are longer, both as they are and as booleans. */
  function Telling(n: nat): seq<string> {
    seq(n, i => if i <= 32767 then "1" else "XX")
  }

  /** The least that an effective slot prints of these arguments. */
  function Least(seg: Segment): nat
    requires IsEffective(seg)
  {
    if seg.typ.Some? then 4 else 1
  }

  /** The documented text of an effective slot is longest past the range of a short. */
  lemma {:induction false} TellingPiece(seg: Segment, n: nat, c: nat)
    requires IsEffective(seg) && WellFormed(seg) && Place(seg, c) < n
    ensures |Piece(seg, Telling(n), c)| == Least(seg) + if Place(seg, c) > 32767 then 1 else 0
  {
    ValueIsNatural(seg.digits);
  }

  /** The loop, whose index and cursor are shorts, never gets there. */
  lemma {:induction false} TellingLoop(seg: Segment, sticky: bool, n: nat, cursor: int)
    requires seg.Slot? && WellFormed(seg) && cursor <= 32767
    ensures var use := UseOf(seg, sticky); var p := LoopPiece(use, Telling(n), cursor);
      && |p| <= (if IsEffective(seg) && !sticky then Least(seg) else 0)
      && LoopCursor(use, Telling(n), cursor) <= 32767
      && (NextSticky(use, Telling(n)) ==> IndexedBoolean(seg) && !sticky)
  {
    InsideOfSlot(seg);
  }

  lemma {:induction false} IndexedIsSticky(seg: Segment, n: nat)
    requires IndexedBoolean(seg) && WellFormed(seg) && Value(seg.digits) <= 32767 && Value(seg.digits) < n
    ensures NextSticky(UseOf(seg, false), Telling(n))
  {
    WrappedFits(seg.digits);
  }

  predicate FitsFrom(segs: seq<Segment>, c: nat) {
    segs != [] ==>
      && (IsEffective(segs[0]) ==> Place(segs[0], c) <= 32767)
      && FitsFrom(segs[1..], if IsAutomatic(segs[0]) then c + 1 else c)
  }

  lemma {:induction false} FitsFromStart(segs: seq<Segment>, c: nat)
    ensures FitsFrom(segs, c) <==> IndicesFit(segs) && (AutoCount(segs) > 0 ==> c + AutoCount(segs) <= 32768)
    decreases |segs|
  {
    if segs != [] {
      FitsFromStart(segs[1..], if IsAutomatic(segs[0]) then c + 1 else c);
      IndicesFitUnfold(segs);
    }
  }

  lemma {:induction false} IndicesFitUnfold(segs: seq<Segment>)
    requires segs != []
    ensures IndicesFit(segs) <==>
      (IsEffective(segs[0]) && segs[0].digits != "" ==> Value(segs[0].digits) <= 32767) && IndicesFit(segs[1..])
  {
    var rest := segs[1..];
    if IndicesFit(rest) {
      forall i | 0 < i < |segs| && IsEffective(segs[i]) && segs[i].digits != ""
        ensures Value(segs[i].digits) <= 32767
      {
        assert segs[i] == rest[i - 1];
      }
    }
  }

  lemma {:induction false} SuppliedHead(segs: seq<Segment>, n: nat, c: nat)
    requires segs != [] && SuppliedFrom(segs, n, c)
    ensures IsEffective(segs[0]) ==> Place(segs[0], c) < n
    ensures SuppliedFrom(segs[1..], n, if IsAutomatic(segs[0]) then c + 1 else c)
  {
  }

  predicate SuppliedFrom(segs: seq<Segment>, n: nat, c: nat) {
    && (AutoCount(segs) > 0 ==> c + AutoCount(segs) <= n)
    && forall i :: 0 <= i < |segs| && IsEffective(segs[i]) && segs[i].digits != "" ==> Value(segs[i].digits) < n
  }

  /** On these arguments the loop never prints more than the documented text, and it prints less when an
      effective slot is swallowed or a number does not fit. */
  lemma {:induction false} TellingShorter(
      segs: seq<Segment>, n: nat, out: string, sticky: bool, cursor: int, c: nat)
    requires Documented(segs) && SuppliedFrom(segs, n, c) && cursor <= 32767
    ensures var r := Meaning(segs, Telling(n), out, sticky, cursor);
      r.Done? ==>
        |r.text| + (if Safe(segs, sticky) && FitsFrom(segs, c) then 0 else 1) <= |out| + |Render(segs, Telling(n), c)|
    decreases |segs|
  {
    hide Telling, Wrapped, Argument, SuppliedFrom, UseOf, LoopPiece, LoopCursor, NextSticky, Value;
    var args := Telling(n);
    if segs != [] {
      var seg, rest := segs[0], segs[1..];
      SuppliedHead(segs, n, c);
      var c' := NextCursor(seg, args, c);
      if !seg.Slot? {
        TellingShorter(rest, n, out + Piece(seg, args, c), sticky, cursor, c');
      } else {
        var use := UseOf(seg, sticky);
        var p := LoopPiece(use, args, cursor);
        TellingLoop(seg, sticky, n, cursor);
        if IsEffective(seg) {
          TellingPiece(seg, n, c);
        }
        assert c' == if IsAutomatic(seg) then c + 1 else c by { TellingLength(n); }
        if IndexedBoolean(seg) && !sticky && Place(seg, c) <= 32767 {
          IndexedIsSticky(seg, n);
        }
        TellingShorter(rest, n, out + p, NextSticky(use, args), LoopCursor(use, args, cursor), c');
      }
    }
  }

  lemma {:induction false} TellingLength(n: nat)
    ensures |Telling(n)| == n
  {
  }

  /** When every slot has its argument, the documented text is printed for all arguments exactly when no
      effective slot comes next after an indexed boolean one, the list does not end in a slot of an unknown
      type, and all numbers fit a short. */
  lemma {:induction false} FaithfulExactly(segs: seq<Segment>, n: nat)
    requires Documented(segs) && Supplied(segs, n)
    ensures (forall args :: |args| == n ==> Faithful(segs, args))
      <==> Clean(segs) && !EndsIgnored(segs) && FitsShort(segs)
  {
    SafeIsClean(segs, false);
    FitsFromStart(segs, 0);
    if Clean(segs) && !EndsIgnored(segs) && FitsShort(segs) {
      forall args: seq<string> | |args| == n
        ensures Faithful(segs, args)
      {
        CleanScan(segs, args);
        SuppliedEndsWell(segs, args);
      }
    } else {
      TellingLength(n);
      ScanOfPrinted(segs, Telling(n));
      if EndsIgnored(segs) {
        MeaningEnds(segs, Telling(n), "", false, 0);
        IgnoredFallsThrough(segs, Telling(n));
      } else {
        TellingShorter(segs, n, "", false, 0, 0);
      }
      assert !Faithful(segs, Telling(n));
    }
  }

  lemma {:induction false} IgnoredFallsThrough(segs: seq<Segment>, args: seq<string>)
    requires Documented(segs) && EndsIgnored(segs)
    ensures LastFallsThrough(segs, args, false, 0)
  {
    InsideOfSlot(segs[|segs| - 1]);
  }

  // ----- Examples

  /** A slot right after an indexed boolean one is swallowed: {0:b}{1} loses its second argument. */
  lemma {:induction false} SwallowedSlot(args: seq<string>, c: char)
    requires |args| == 2 && c != '{' && c != NUL
    ensures Scan(PrintAll([Slot("0", Some("b")), Slot("1", None), Lit(c)]), args, START)
      == Done(TrueFalse(args[0]) + [c])
  {
    hide Scan;
    var bool0, slot1, lit := Slot("0", Some("b")), Slot("1", None), Lit(c);
    var s0, s1 := [bool0, slot1, lit], [slot1, lit];
    assert s0[1..] == s1 && s1[1..] == [lit] && [lit][1..] == [];
    ScanOfPrinted(s0, args);
    var t := TrueFalse(args[0]);
    assert "" + t == t && t + "" == t;
    assert UseOf(bool0, false) == Shows(0, true);
    InsideOfSlot(slot1);
    assert UseOf(slot1, true) == Drops;
    assert Meaning(s0, args, "", false, 0) == Meaning(s1, args, t, true, 0);
    assert Meaning(s1, args, t, true, 0) == Meaning([lit], args, t, false, 0);
    assert Meaning([lit], args, t, false, 0) == Meaning([], args, t + [c], false, 0);
  }

  lemma {:induction false} WrappedAppend(front: string, c: char, whole: string)
    requires whole == front + [c]
    ensures Wrapped(whole) == if Wrapped(front) == -1 then DigitOf(c) else ToShort(Wrapped(front) * 10 + DigitOf(c))
  {
    assert whole[..|front|] == front;
  }

  lemma {:induction false} WrappedExamples()
    ensures Wrapped("32768") == -32768 && Wrapped("65535") == -1 && Wrapped("65536") == 0
  {
    hide Wrapped, Value, ToShort;
    FourDigits("3276", 3276);
    FourDigits("6553", 6553);
    WrappedAppend("3276", '8', "32768");
    WrappedAppend("6553", '5', "65535");
    WrappedAppend("6553", '6', "65536");
    assert ToShort(32768) == -32768 && ToShort(65535) == -1 && ToShort(65536) == 0 by { Shorts(); }
  }

  lemma {:induction false} Shorts()
    ensures ToShort(32768) == -32768 && ToShort(65535) == -1 && ToShort(65536) == 0
  {
  }

  lemma {:induction false} FourDigits(s: string, v: nat)
    requires |s| == 4 && AllDigits(s)
    requires v == 1000 * DigitOf(s[0]) + 100 * DigitOf(s[1]) + 10 * DigitOf(s[2]) + DigitOf(s[3])
    ensures Wrapped(s) == v
  {
    var s3, s2, s1 := s[..3], s[..2], s[..1];
    assert s3[..2] == s2 && s2[..1] == s1 && s1[..0] == "";
    assert Value(s1) == DigitOf(s[0]);
    assert Value(s2) == 10 * Value(s1) + DigitOf(s[1]);
    assert Value(s3) == 10 * Value(s2) + DigitOf(s[2]);
    WrappedFits(s);
  }

  /** The index 32768 stops the loop, 65536 shows the first argument, and a type resets either. */
  lemma {:induction false} OverflowExample(args: seq<string>)
    ensures Scan("{32768}", args, START) == Hangs
    ensures |args| > 0 ==> Scan("{65536}", args, START) == Done(args[0])
    ensures Scan("{32768:b}x", args, START) == Done("x")
  {
    hide Scan, Wrapped;
    WrappedExamples();
    SlotAlone("32768", "{32768}", args);
    SlotAlone("65536", "{65536}", args);
    TypedThenX("32768", "{32768:b}x", args);
  }

  lemma {:induction false} TypedThenX(digits: string, fmt: string, args: seq<string>)
    requires AllDigits(digits) && Wrapped(digits) < -1 && fmt == "{" + (digits + (":" + "b")) + "}" + "x"
    ensures Scan(fmt, args, START) == Done("x")
  {
    hide Scan, Wrapped, AllDigits;
    var typed, x := Slot(digits, Some("b")), Lit('x');
    var segs := [typed, x];
    assert segs[1..] == [x] && [x][1..] == [];
    ScanOfPrinted(segs, args);
    assert PrintAll([x]) == "x" + PrintAll([]) == "x";
    assert PrintAll(segs) == Print(typed) + "x" == fmt;
    assert UseOf(typed, false) == Shows(Wrapped(digits), true);
    assert Meaning(segs, args, "", false, 0) == Meaning([x], args, "" + "", false, 0);
    assert "" + "" == "" && "" + ['x'] == "x";
    assert Meaning([x], args, "", false, 0) == Meaning([], args, "x", false, 0);
  }

  lemma {:induction false} SlotAlone(digits: string, fmt: string, args: seq<string>)
    requires AllDigits(digits) && fmt == "{" + digits + "}"
    ensures Scan(fmt, args, START)
      == if Wrapped(digits) < -1 then Hangs else Done(LoopPiece(Shows(Wrapped(digits), false), args, 0))
  {
    hide Scan, Wrapped, LoopPiece, AllDigits;
    var segs := [Slot(digits, None)];
    assert segs[1..] == [];
    ScanOfPrinted(segs, args);
    assert PrintAll(segs) == Print(segs[0]) + PrintAll([]);
    assert digits + "" == digits && PrintAll(segs) == fmt;
    var use := UseOf(segs[0], false);
    assert !use.Stops? ==> "" + LoopPiece(use, args, 0) == LoopPiece(use, args, 0);
  }

  // ----- Numbers as texts, and what the slots show, in plain terms

  /** A number in decimal. */
  function DecimalText(n: nat): (t: string)
    ensures t != ""
  {
    if n < 10 then ["0123456789"[n]] else DecimalText(n / 10) + ["0123456789"[n % 10]]
  }

  lemma {:induction false} DecimalDigit(n: nat)
    requires n < 10
    ensures IsDigit("0123456789"[n]) && DigitOf("0123456789"[n]) == n
  {
  }

  lemma {:induction false} ValueAppend(front: string, c: char)
    ensures Value(front + [c]) == 10 * Value(front) + DigitOf(c)
  {
    assert (front + [c])[..|front|] == front;
  }

  /** Reading a decimal text gives the number back. */
  lemma {:induction false} ValueOfDecimal(n: nat)
    ensures Value(DecimalText(n)) == n && AllDigits(DecimalText(n))
  {
    hide IsDigit, DigitOf, Value;
    DecimalDigit(n % 10);
    if n < 10 {
      ValueAppend("", "0123456789"[n]);
      assert "" + ["0123456789"[n]] == DecimalText(n);
      assert Value("") == 0 by { ValueOfNothing(); }
    } else {
      ValueOfDecimal(n / 10);
      ValueAppend(DecimalText(n / 10), "0123456789"[n % 10]);
    }
  }

  lemma {:induction false} ValueOfNothing()
    ensures Value("") == 0
  {
  }

  lemma {:induction false} WrappedOfDecimal(n: nat)
    ensures n <= 32767 ==> Wrapped(DecimalText(n)) == n
    ensures 32768 <= n <= 65535 ==> Wrapped(DecimalText(n)) == n - 65536
  {
    hide Wrapped, Value, AllDigits, DigitOf, IsDigit;
    ValueOfDecimal(n);
    if n <= 32767 {
      WrappedFits(DecimalText(n));
    } else if n <= 65535 {
      ValueOfDecimal(n / 10);
      WrappedFits(DecimalText(n / 10));
      DecimalDigit(n % 10);
      WrappedAppend(DecimalText(n / 10), "0123456789"[n % 10], DecimalText(n));
    }
  }

  /**
  A slot with a number shows the argument of that number, or nothing when there is none, up to 32767. The numbers
  from there to 65534 stop the loop, and 65535 shows the first argument.
  */
  lemma {:induction false} NumberedSlot(n: nat, args: seq<string>)
    ensures var r := Scan("{" + DecimalText(n) + "}", args, START);
      && (n <= 32767 ==> r == Done(if n < |args| then args[n] else ""))
      && (32768 <= n <= 65534 ==> r == Hangs)
      && (n == 65535 ==> r == Done(if 0 < |args| then args[0] else ""))
  {
    hide Scan, Wrapped, AllDigits, Value, DecimalText;
    ValueOfDecimal(n);
    WrappedOfDecimal(n);
    SlotAlone(DecimalText(n), "{" + DecimalText(n) + "}", args);
  }

  lemma {:induction false} TypedAlone(digits: string, t: string, fmt: string, args: seq<string>)
    requires AllDigits(digits) && TypeText(t) && IsBool(t) && fmt == "{" + (digits + (":" + t)) + "}"
    ensures var use := Shows(Wrapped(digits), true);
      Scan(fmt, args, START) ==
        if InRange(args, Chosen(use, 0)) then Done(TrueFalse(args[Chosen(use, 0)])) else Overreads
  {
    hide Scan, Wrapped, AllDigits, IsBool, TypeText, TrueFalse;
    var segs := [Slot(digits, Some(t))];
    assert segs[1..] == [];
    ScanOfPrinted(segs, args);
    assert PrintAll(segs) == Print(segs[0]) + PrintAll([]);
    assert PrintAll(segs) == fmt;
    var use := UseOf(segs[0], false);
    assert use == Shows(Wrapped(digits), true);
    assert "" + LoopPiece(use, args, 0) == LoopPiece(use, args, 0);
  }

  /** A numbered slot with the type b or B shows whether its argument is one of five words. */
  lemma {:induction false} BooleanSlot(n: nat, t: string, args: seq<string>)
    requires n <= 32767 && n < |args| && (t == "b" || t == "B")
    ensures Scan("{" + (DecimalText(n) + (":" + t)) + "}", args, START)
      == Done(if args[n] in {"Y", "y", "True", "TRUE", "1"} then "true" else "false")
    ensures Scan("{:" + t + "}", args, START)
      == Done(if args[0] in {"Y", "y", "True", "TRUE", "1"} then "true" else "false")
  {
    hide Scan, Wrapped, AllDigits, Value, DecimalText;
    ValueOfDecimal(n);
    WrappedOfDecimal(n);
    TypedAlone(DecimalText(n), t, "{" + (DecimalText(n) + (":" + t)) + "}", args);
    NoDigits();
    assert "{" + ("" + (":" + t)) + "}" == "{:" + t + "}";
    TypedAlone("", t, "{:" + t + "}", args);
  }

  lemma {:induction false} NoDigits()
    ensures AllDigits("") && Wrapped("") == -1
  {
  }

  lemma {:induction false} IgnoredThen(t: string, c: char, args: seq<string>)
    requires !IsBool(t)
    ensures Meaning([Slot("", Some(t)), Lit(c)], args, "", false, 0) == Done([c])
  {
    hide IsBool, Inside;
    var segs := [Slot("", Some(t)), Lit(c)];
    assert segs[1..] == [Lit(c)] && [Lit(c)][1..] == [];
    assert "" + "" == "" && "" + [c] == [c];
    assert UseOf(segs[0], false) == Drops;
    assert Meaning(segs, args, "", false, 0) == Meaning([Lit(c)], args, "", false, 0);
    assert Meaning([Lit(c)], args, "", false, 0) == Meaning([], args, [c], false, 0);
  }

  lemma {:induction false} TypedThenPrinted(t: string, c: char)
    ensures PrintAll([Slot("", Some(t)), Lit(c)]) == "{:" + t + "}" + [c]
  {
    var segs := [Slot("", Some(t)), Lit(c)];
    assert segs[1..] == [Lit(c)] && [Lit(c)][1..] == [];
    assert PrintAll([Lit(c)]) == [c] + PrintAll([]) == [c];
    assert "" + (":" + t) == ":" + t && "{" + (":" + t) + "}" == "{:" + t + "}";
  }

  /** A slot of any other type shows nothing. */
  lemma {:induction false} OtherType(t: string, c: char, args: seq<string>)
    requires t != "b" && t != "B" && (forall i :: 0 <= i < |t| ==> t[i] != '{' && t[i] != '}' && t[i] != '\0')
    requires c != '{' && c != '\0'
    ensures Scan("{:" + t + "}" + [c], args, START) == Done([c])
  {
    hide Scan, Meaning, PrintAll;
    TypedThenPrinted(t, c);
    IgnoredThen(t, c, args);
    ScanOfPrinted([Slot("", Some(t)), Lit(c)], args);
  }

  /** A character that is no digit, brace or colon stops the loop in a slot. */
  lemma {:induction false} StrayAlone(c: char, args: seq<string>)
    requires c !in {'0', '1', '2', '3', '4', '5', '6', '7', '8', '9', ':', '{', '}', '\0'}
    ensures Scan("{" + [c] + "}", args, START) == Hangs
  {
    hide Scan;
    var segs := [Stray("", c, "")];
    assert IsDigit(c) ==> c in {'0', '1', '2', '3', '4', '5', '6', '7', '8', '9'};
    assert segs[1..] == [];
    ScanOfPrinted(segs, args);
    assert PrintAll(segs) == Print(segs[0]) + PrintAll([]);
    assert PrintAll(segs) == "{" + [c] + "}";
  }

  lemma {:induction false} ExampleUses()
    ensures UseOf(Slot("", None), false) == Shows(-1, false) && UseOf(Slot("0", None), false) == Shows(0, false)
    ensures UseOf(Slot("2", Some("b")), false) == Shows(2, true)
  {
    assert "0"[..0] == "" && "2"[..0] == "";
    NoDigits();
  }

  lemma {:induction false} ExampleTexts()
    ensures Print(Lit(' ')) == " " && Print(Slot("", None)) == "{}" && Print(Slot("0", None)) == "{0}"
    ensures Print(Slot("2", Some("b"))) == "{2:b}" && PrintAll([]) == ""
    ensures AllWellFormed([]) && WellFormed(Lit(' ')) && WellFormed(Slot("", None)) && WellFormed(Slot("0", None))
    ensures WellFormed(Slot("2", Some("b")))
  {
  }

  /** A list whose text and whose meaning from some state on are known. */
  predicate Means(segs: seq<Segment>, args: seq<string>, text: string, out: string, cursor: int, result: string) {
    AllWellFormed(segs) && PrintAll(segs) == text && Meaning(segs, args, out, false, cursor) == Done(result)
  }

  lemma {:induction false} MeansBefore(
      seg: Segment, rest: seq<Segment>, args: seq<string>, text: string, out: string, cursor: int, result: string,
      all: string, before: string, cursor': int)
    requires WellFormed(seg) && Means(rest, args, text, out, cursor, result) && Print(seg) + text == all
    requires seg.Lit? ==> before + [seg.c] == out && cursor' == cursor
    requires !seg.Lit? ==>
      && seg.Slot? && !UseOf(seg, false).Stops? && !FallsThrough(UseOf(seg, false), args, cursor')
      && !NextSticky(UseOf(seg, false), args)
      && before + LoopPiece(UseOf(seg, false), args, cursor') == out
      && LoopCursor(UseOf(seg, false), args, cursor') == cursor
    ensures Means([seg] + rest, args, all, before, cursor', result)
  {
    hide UseOf, WellFormed, LoopPiece, LoopCursor, NextSticky, Print;
    assert ([seg] + rest)[1..] == rest;
  }

  /** The example of the documentation. */
  lemma {:induction false} DocumentedExample()
    ensures Scan("{} {0} {} {2:b}", ["10", "20", "1"], START) == Done("10 10 20 true")
  {
    hide Scan, Meaning, UseOf, PrintAll, Print, Means, WellFormed, AllWellFormed;
    var sp, auto, zero, args := Lit(' '), Slot("", None), Slot("0", None), ["10", "20", "1"];
    var result := "10 10 20 true";
    ExampleTexts();
    ExampleUses();
    LastMeans(args);
    var s6 := [Slot("2", Some("b"))];
    var s5 := [sp] + s6;
    MeansBefore(sp, s6, args, "{2:b}", "10 10 20 ", 2, result, " {2:b}", "10 10 20", 2);
    var s4 := [auto] + s5;
    MeansBefore(auto, s5, args, " {2:b}", "10 10 20", 2, result, "{} {2:b}", "10 10 ", 1);
    var s3 := [sp] + s4;
    MeansBefore(sp, s4, args, "{} {2:b}", "10 10 ", 1, result, " {} {2:b}", "10 10", 1);
    var s2 := [zero] + s3;
    MeansBefore(zero, s3, args, " {} {2:b}", "10 10", 1, result, "{0} {} {2:b}", "10 ", 1);
    var s1 := [sp] + s2;
    MeansBefore(sp, s2, args, "{0} {} {2:b}", "10 ", 1, result, " {0} {} {2:b}", "10", 1);
    MeansBefore(auto, s1, args, " {0} {} {2:b}", "10", 1, result, "{} {0} {} {2:b}", "", 0);
    MeansScans([auto] + s1, args, "{} {0} {} {2:b}", result);
  }

  lemma {:induction false} LastMeans(args: seq<string>)
    requires args == ["10", "20", "1"]
    ensures Means([Slot("2", Some("b"))], args, "{2:b}", "10 10 20 ", 2, "10 10 20 true")
  {
    hide UseOf;
    var segs := [Slot("2", Some("b"))];
    assert segs[1..] == [];
    ExampleUses();
    ExampleTexts();
    assert Meaning(segs, args, "10 10 20 ", false, 2) == Done("10 10 20 " + "true");
  }

  lemma {:induction false} MeansScans(segs: seq<Segment>, args: seq<string>, text: string, result: string)
    requires Means(segs, args, text, "", 0, result)
    ensures Scan(text, args, START) == Done(result)
  {
    hide Scan, Meaning, PrintAll;
    ScanOfPrinted(segs, args);
  }

  function Automatic(k: nat): string {
    if k == 0 then "" else "{}" + Automatic(k - 1)
  }

  function Together(texts: seq<string>): string {
    if texts == [] then "" else texts[0] + Together(texts[1..])
  }

  function Slots(k: nat): seq<Segment> {
    if k == 0 then [] else [Slot("", None)] + Slots(k - 1)
  }

  lemma {:induction false} SlotsPrint(k: nat)
    ensures PrintAll(Slots(k)) == Automatic(k) && AllWellFormed(Slots(k))
  {
    if k > 0 {
      SlotsPrint(k - 1);
      assert Slots(k)[1..] == Slots(k - 1);
      assert "{" + ("" + "") + "}" == "{}";
    }
  }

  lemma {:induction false} OneSlotMeans(rest: seq<Segment>, args: seq<string>, out: string, c: nat)
    requires c < |args|
    ensures Meaning([Slot("", None)] + rest, args, out, false, c)
      == Meaning(rest, args, out + args[c], false, ToShort(c + 1))
  {
    hide ToShort;
    NoDigits();
    assert UseOf(Slot("", None), false) == Shows(-1, false);
    assert ([Slot("", None)] + rest)[1..] == rest;
  }

  lemma {:induction false} SlotsMean(k: nat, args: seq<string>, out: string, c: nat)
    requires c + k <= |args| && c + k <= 32768
    ensures Meaning(Slots(k), args, out, false, c) == Done(out + Together(args[c..c + k]))
    decreases k
  {
    if k == 0 {
      assert out + "" == out;
    } else {
      var shown := args[c + 1..c + k];
      OneSlotMeans(Slots(k - 1), args, out, c);
      assert Together(args[c..c + k]) == args[c] + Together(shown) by { assert args[c..c + k] == [args[c]] + shown; }
      assert out + (args[c] + Together(shown)) == (out + args[c]) + Together(shown);
      if k > 1 {
        hide Meaning;
        SlotsMean(k - 1, args, out + args[c], c + 1);
      }
    }
  }

  /** Automatic slots show the arguments from left to right, as many as a short can count. */
  lemma {:induction false} AutomaticSlots(k: nat, args: seq<string>)
    requires k <= |args| && k <= 32768
    ensures Scan(Automatic(k), args, START) == Done(Together(args[..k]))
  {
    hide Scan, Meaning;
    SlotsPrint(k);
    ScanOfPrinted(Slots(k), args);
    SlotsMean(k, args, "", 0);
    assert "" + Together(args[0..k]) == Together(args[..k]);
  }

  function Literals(t: string): seq<Segment> {
    seq(|t|, i requires 0 <= i < |t| => Lit(t[i]))
  }

  lemma {:induction false} PlainFrom(fmt: string, args: seq<string>, k: nat, n: nat)
    requires k <= n <= |fmt| && (n == |fmt| || fmt[n] == '\0')
    requires forall i :: 0 <= i < n ==> fmt[i] != '{' && fmt[i] != '\0'
    ensures Scan(fmt, args, Boundary(k, fmt[..k], false, 0)) == Done(fmt[..n])
    decreases n - k
  {
    if k < n {
      LiteralStep(fmt, args, Boundary(k, fmt[..k], false, 0));
      assert fmt[..k] + [fmt[k]] == fmt[..k + 1];
      PlainFrom(fmt, args, k + 1, n);
    }
  }

  /** A text without an opening brace is copied, up to the terminator. */
  lemma {:induction false} PlainText(t: string, rest: string, args: seq<string>)
    requires forall i :: 0 <= i < |t| ==> t[i] != '{' && t[i] != '\0'
    ensures Scan(t, args, START) == Done(t) && Scan(t + "\0" + rest, args, START) == Done(t)
  {
    hide Scan;
    PlainFrom(t, args, 0, |t|);
    var fmt := t + "\0" + rest;
    assert fmt[..|t|] == t && fmt[|t|] == '\0';
    PlainFrom(fmt, args, 0, |t|);
  }

  // ----- A brace inside a slot

  /** An opening brace in a slot, whatever the slot holds so far, turns it back into a brace of the text ... */
  lemma {:induction false} BraceInSlot(fmt: string, args: seq<string>, m: Machine)
    requires m.placeHolder && !m.bracket && m.pos + 1 < |fmt| && fmt[m.pos] == '{'
    requires fmt[m.pos + 1] != '}' && fmt[m.pos + 1] != NUL
    ensures Scan(fmt, args, m)
      == Scan(fmt, args, m.(pos := m.pos + 1, placeHolder := false, out := m.out + "{"))
  {
    hide Scan;
    ScanStep(fmt, args, m);
    var m1 := m.(bracket := true, pos := m.pos + 1);
    assert Iterate(fmt, args, m) == m1;
    var m2 := m.(pos := m.pos + 1, placeHolder := false, out := m.out + "{");
    assert Iterate(fmt, args, m1) == Iterate(fmt, args, m2);
    ScanStep(fmt, args, m1);
    ScanStep(fmt, args, m2);
  }

  /** ... and takes one closing brace with it; two closing braces make it the escape. */
  lemma {:induction false} BraceAndClose(fmt: string, args: seq<string>, m: Machine)
    requires m.placeHolder && !m.bracket && m.pos + 2 < |fmt| && fmt[m.pos..m.pos + 2] == "{}"
    requires fmt[m.pos + 2] != NUL
    ensures Scan(fmt, args, m) ==
      if fmt[m.pos + 2] == '}' then
        Scan(fmt, args, m.(pos := m.pos + 3, placeHolder := false, out := m.out + "{}"))
      else
        Scan(fmt, args, m.(pos := m.pos + 2, placeHolder := false, out := m.out + "{"))
  {
    hide Scan;
    assert fmt[m.pos] == fmt[m.pos..m.pos + 2][0] && fmt[m.pos + 1] == fmt[m.pos..m.pos + 2][1];
    ScanStep(fmt, args, m);
    var m1 := m.(bracket := true, pos := m.pos + 1);
    assert Iterate(fmt, args, m) == m1;
    ScanStep(fmt, args, m1);
    if fmt[m.pos + 2] == '}' {
      assert Iterate(fmt, args, m1) == m.(pos := m.pos + 3, placeHolder := false, out := m.out + "{}");
    } else {
      var m2 := m.(pos := m.pos + 2, placeHolder := false, out := m.out + "{");
      assert Iterate(fmt, args, m1) == Iterate(fmt, args, m2);
      ScanStep(fmt, args, m2);
    }
  }

  /** At the end of the format the brace is lost, and with a closing one the terminator is passed. */
  lemma {:induction false} BraceAtEnd(fmt: string, args: seq<string>, m: Machine)
    requires m.placeHolder && !m.bracket && m.pos < |fmt| && fmt[m.pos] == '{'
    ensures m.pos + 1 == |fmt| ==> Scan(fmt, args, m) == Done(m.out)
    ensures m.pos + 2 == |fmt| && fmt[m.pos + 1] == '}' ==> Scan(fmt, args, m) == Overreads
  {
    hide Scan;
    ScanStep(fmt, args, m);
    var m1 := m.(bracket := true, pos := m.pos + 1);
    assert Iterate(fmt, args, m) == m1;
    if m.pos + 1 == |fmt| {
      ScanStops(fmt, args, m1);
    } else if m.pos + 2 == |fmt| && fmt[m.pos + 1] == '}' {
      ScanStep(fmt, args, m1);
      ScanStops(fmt, args, Iterate(fmt, args, m1));
    }
  }

  /** A last slot that is not closed shows nothing, wherever it begins. */
  lemma {:induction false} UnclosedSlot(
      fmt: string, args: seq<string>, digits: string, t: Option<string>, pos: nat, out: string, cursor: int)
    requires AllDigits(digits) && (t.Some? ==> TypeText(t.value))
    requires pos <= |fmt| && fmt[pos..] == "{" + (digits + if t.Some? then ":" + t.value else "")
    ensures Scan(fmt, args, Boundary(pos, out, false, cursor)) == Done(out)
  {
    hide Scan, AllDigits, TypeText, Wrapped;
    assert fmt[pos] == fmt[pos..][0] && fmt[pos + 1..] == fmt[pos..][1..];
    var m := AfterDigits(digits, pos, out, cursor);
    assert Occurs(fmt, pos + 1, digits) by { assert fmt[pos + 1..][..|digits|] == digits; }
    ScanHead(fmt, args, digits, pos, out, cursor);
    if t.None? {
      ScanStops(fmt, args, m);
    } else {
      assert Occurs(fmt, pos + 1, digits + (":" + t.value));
      TypedParts(fmt, digits, t.value, pos + 1);
      ColonStep(fmt, args, m);
      var m' := m.(pos := m.pos + 1, isType := true);
      ScanType(fmt, args, m', t.value);
      ScanStops(fmt, args, m'.(pos := |fmt|, typ := m'.typ + t.value));
    }
  }
}
