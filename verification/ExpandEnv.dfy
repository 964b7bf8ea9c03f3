// The configuration preprocessor: ${name} references are replaced by
// environment values. A byte-level scanner, proved against a grammar.

module ExpandEnv {
  newtype Byte = b: int | 0 <= b < 256

  type Bytes = seq<Byte>

  const NEWLINE: Byte := 10
  const DOLLAR: Byte := 36
  const OPEN: Byte := 123
  const CLOSE: Byte := 125

  predicate IsAlphanumeric(b: Byte) {
    (97 <= b <= 122) || (65 <= b <= 90) || (48 <= b <= 57) || b == 95
  }

  predicate IsName(s: Bytes) {
    forall i :: 0 <= i < |s| ==> IsAlphanumeric(s[i])
  }

  // Letters, digits and the underscore.
  lemma NameBytes(b: Byte)
    ensures IsAlphanumeric(b) <==>
            var c := b as int as char;
            'a' <= c <= 'z' || 'A' <= c <= 'Z' || '0' <= c <= '9' || c == '_'
    ensures DOLLAR as int as char == '$' && OPEN as int as char == '{' && CLOSE as int as char == '}'
    ensures NEWLINE as int as char == '\n'
  {
  }

  // An unset variable and an empty one look the same.
  function Getenv(env: map<Bytes, Bytes>, name: Bytes): Bytes {
    if name in env then env[name] else []
  }

  datatype Result = Ok(out: Bytes) | MissingVariable(variable: Bytes, line: nat)

  // ---------- grammar ----------

  datatype Piece =
    | Plain(c: Byte)                // any byte but '$'
    | LoneDollar(c: Byte)           // '$' and the byte after it, which is not '{'
    | Broken(name: Bytes, c: Byte)  // "${" name, cut short by a byte that is neither name nor '}'
    | Ref(name: Bytes)              // "${" name "}"

  // Pieces, then an unfinished reference at the end of the input, or nothing.
  datatype Text = End(tail: Bytes) | Cons(piece: Piece, rest: Text)

  predicate WellFormedPiece(p: Piece) {
    match p
    case Plain(c) => c != DOLLAR
    case LoneDollar(c) => c != OPEN
    case Broken(name, c) => IsName(name) && !IsAlphanumeric(c) && c != CLOSE
    case Ref(name) => IsName(name)
  }

  predicate WellFormed(t: Text) {
    match t
    case End(tail) =>
      || tail == []
      || tail == [DOLLAR]
      || (|tail| >= 2 && tail[0] == DOLLAR && tail[1] == OPEN && IsName(tail[2..]))
    case Cons(p, rest) => WellFormedPiece(p) && WellFormed(rest)
  }

  function SpellPiece(p: Piece): Bytes {
    match p
    case Plain(c) => [c]
    case LoneDollar(c) => [DOLLAR, c]
    case Broken(name, c) => [DOLLAR, OPEN] + name + [c]
    case Ref(name) => [DOLLAR, OPEN] + name + [CLOSE]
  }

  function Spell(t: Text): Bytes {
    match t
    case End(tail) => tail
    case Cons(p, rest) => SpellPiece(p) + Spell(rest)
  }

  // The end of the longest run of name bytes that starts at k.
  function NameEnd(s: Bytes, k: nat): (e: nat)
    requires k <= |s|
    ensures k <= e <= |s|
    decreases |s| - k
  {
    if k == |s| || !IsAlphanumeric(s[k]) then k else NameEnd(s, k + 1)
  }

  datatype Head = NoPiece | Found(piece: Piece, end: nat)

  // The complete piece that starts at j, if there is one.
  function HeadAt(s: Bytes, j: nat): (h: Head)
    requires j <= |s|
    ensures h.Found? ==> j < h.end <= |s|
  {
    if j == |s| then NoPiece
    else if s[j] != DOLLAR then Found(Plain(s[j]), j + 1)
    else if j + 1 == |s| then NoPiece
    else if s[j + 1] != OPEN then Found(LoneDollar(s[j + 1]), j + 2)
    else
      var e := NameEnd(s, j + 2);
      if e == |s| then NoPiece
      else Found(if s[e] == CLOSE then Ref(s[j + 2..e]) else Broken(s[j + 2..e], s[e]), e + 1)
  }

  function ParseAt(s: Bytes, j: nat): Text
    requires j <= |s|
    decreases |s| - j
  {
    var h := HeadAt(s, j);
    if h.NoPiece? then End(s[j..]) else Cons(h.piece, ParseAt(s, h.end))
  }

  function Parse(s: Bytes): Text {
    ParseAt(s, 0)
  }

  lemma {:induction false} NameEndStops(s: Bytes, k: nat)
    requires k <= |s|
    ensures forall i :: k <= i < NameEnd(s, k) ==> IsAlphanumeric(s[i])
    ensures NameEnd(s, k) < |s| ==> !IsAlphanumeric(s[NameEnd(s, k)])
    decreases |s| - k
  {
    if k < |s| && IsAlphanumeric(s[k]) { NameEndStops(s, k + 1); }
  }

  lemma {:induction false} NameEndIs(s: Bytes, k: nat, e: nat)
    requires k <= e <= |s| && (forall i :: k <= i < e ==> IsAlphanumeric(s[i]))
    requires e < |s| ==> !IsAlphanumeric(s[e])
    ensures NameEnd(s, k) == e
    decreases e - k
  {
    if k < e { NameEndIs(s, k + 1, e); }
  }

  lemma BraceSlices(s: Bytes, j: nat, e: nat)
    requires j + 2 <= e <= |s| && s[j] == DOLLAR && s[j + 1] == OPEN
    requires forall i :: j + 2 <= i < e ==> IsAlphanumeric(s[i])
    ensures IsName(s[j + 2..e])
    ensures e == |s| ==> s[j..][2..] == s[j + 2..e]
    ensures e < |s| ==> s[j..e + 1] == [DOLLAR, OPEN] + s[j + 2..e] + [s[e]]
  {
  }

  // HeadAt finds a well-formed piece spelled at j, or nothing but a tail.
  lemma HeadSpells(s: Bytes, j: nat)
    requires j <= |s|
    ensures HeadAt(s, j).NoPiece? ==> WellFormed(End(s[j..]))
    ensures HeadAt(s, j).Found? ==>
              WellFormedPiece(HeadAt(s, j).piece) && s[j..HeadAt(s, j).end] == SpellPiece(HeadAt(s, j).piece)
  {
    if j + 1 < |s| && s[j] == DOLLAR && s[j + 1] == OPEN {
      NameEndStops(s, j + 2);
      BraceSlices(s, j, NameEnd(s, j + 2));
    }
  }

  lemma {:induction false} ParseSpells(s: Bytes, j: nat)
    requires j <= |s|
    ensures WellFormed(ParseAt(s, j)) && Spell(ParseAt(s, j)) == s[j..]
    decreases |s| - j
  {
    HeadSpells(s, j);
    var h := HeadAt(s, j);
    if h.Found? {
      ParseSpells(s, h.end);
      assert s[j..] == s[j..h.end] + s[h.end..];
    }
  }

  lemma NamedPieceAt(s: Bytes, j: nat, name: Bytes, c: Byte, i: nat)
    requires j <= i <= |s| && IsName(name) && !IsAlphanumeric(c) && s[j..i] == [DOLLAR, OPEN] + name + [c]
    ensures i == j + |name| + 3 && s[j] == DOLLAR && s[j + 1] == OPEN && s[i - 1] == c
    ensures NameEnd(s, j + 2) == i - 1 && s[j + 2..i - 1] == name
  {
    var w := s[j..i];
    assert |w| == i - j && w[0] == DOLLAR && w[1] == OPEN && w[|w| - 1] == c;
    assert forall k :: j + 2 <= k < i - 1 ==> s[k] == w[k - j] == name[k - j - 2];
    NameEndIs(s, j + 2, i - 1);
  }

  // Where a piece is spelled, that piece is found.
  lemma HeadIs(s: Bytes, j: nat, p: Piece, i: nat)
    requires j <= i <= |s| && WellFormedPiece(p) && s[j..i] == SpellPiece(p)
    ensures HeadAt(s, j) == Found(p, i)
  {
    match p
    case Plain(c) => assert s[j] == s[j..i][0];
    case LoneDollar(c) => assert s[j] == s[j..i][0] && s[j + 1] == s[j..i][1];
    case Broken(name, c) => NamedPieceAt(s, j, name, c, i);
    case Ref(name) => NamedPieceAt(s, j, name, CLOSE, i);
  }

  lemma NoHead(s: Bytes, j: nat)
    requires j <= |s| && WellFormed(End(s[j..]))
    ensures HeadAt(s, j).NoPiece?
  {
    var tail := s[j..];
    if |tail| >= 2 {
      assert forall k :: j + 2 <= k < |s| ==> s[k] == tail[2..][k - j - 2];
      NameEndIs(s, j + 2, |s|);
    }
  }

  lemma {:induction false} ParseUniqueAt(s: Bytes, j: nat, t: Text)
    requires j <= |s| && WellFormed(t) && s[j..] == Spell(t)
    ensures ParseAt(s, j) == t
    decreases t
  {
    match t
    case End(tail) => NoHead(s, j);
    case Cons(p, rest) =>
      var i := j + |SpellPiece(p)|;
      assert s[j..i] == s[j..][..|SpellPiece(p)|] == SpellPiece(p);
      assert s[i..] == s[j..][|SpellPiece(p)|..] == Spell(rest);
      HeadIs(s, j, p, i);
      ParseUniqueAt(s, i, rest);
  }

  // Every input splits into pieces in exactly one way.
  lemma ParseUnique(s: Bytes, t: Text)
    ensures WellFormed(t) && Spell(t) == s <==> t == Parse(s)
  {
    assert s[0..] == s;
    ParseSpells(s, 0);
    if WellFormed(t) && Spell(t) == s { ParseUniqueAt(s, 0, t); }
  }

  // ---------- meaning ----------

  function Newlines(s: Bytes): nat {
    if s == [] then 0 else Newlines(s[..|s| - 1]) + if s[|s| - 1] == NEWLINE then 1 else 0
  }

  lemma {:induction false} NewlinesExact(s: Bytes)
    ensures Newlines(s) == multiset(s)[NEWLINE]
    decreases |s|
  {
    if s == [] {
    } else {
      NewlinesExact(s[..|s| - 1]);
      assert s == s[..|s| - 1] + [s[|s| - 1]];
    }
  }

  lemma {:induction false} NewlinesConcat(a: Bytes, b: Bytes)
    ensures Newlines(a + b) == Newlines(a) + Newlines(b)
    decreases |b|
  {
    if b == [] {
      assert a + b == a;
    } else {
      assert (a + b)[..|a + b| - 1] == a + b[..|b| - 1];
      NewlinesConcat(a, b[..|b| - 1]);
    }
  }

  lemma {:induction false} NameHasNoNewline(s: Bytes)
    requires IsName(s)
    ensures Newlines(s) == 0
    decreases |s|
  {
    if s == [] {
    } else {
      NameHasNoNewline(s[..|s| - 1]);
    }
  }

  // Only a piece's last byte can be a newline.
  function PieceNewlines(p: Piece): nat {
    if !p.Ref? && p.c == NEWLINE then 1 else 0
  }

  lemma PieceNewlinesExact(p: Piece)
    requires WellFormedPiece(p)
    ensures Newlines(SpellPiece(p)) == PieceNewlines(p)
  {
    match p
    case Plain(c) => assert [c][..0] == [];
    case LoneDollar(c) =>
      NewlinesConcat([DOLLAR], [c]);
      assert [DOLLAR, c] == [DOLLAR] + [c];
      assert [DOLLAR][..0] == [] && [c][..0] == [];
    case Broken(name, c) => NameNewlines(name, c);
    case Ref(name) => NameNewlines(name, CLOSE);
  }

  lemma NameNewlines(name: Bytes, c: Byte)
    requires IsName(name)
    ensures Newlines([DOLLAR, OPEN] + name + [c]) == if c == NEWLINE then 1 else 0
  {
    NewlinesConcat([DOLLAR, OPEN] + name, [c]);
    NewlinesConcat([DOLLAR, OPEN], name);
    NameHasNoNewline(name);
    assert [c][..0] == [] && [DOLLAR, OPEN][..1] == [DOLLAR] && [DOLLAR][..0] == [];
  }

  predicate Unresolved(env: map<Bytes, Bytes>, p: Piece) {
    p.Ref? && Getenv(env, p.name) == []
  }

  function Value(env: map<Bytes, Bytes>, p: Piece): Bytes {
    if p.Ref? then Getenv(env, p.name) else SpellPiece(p)
  }

  function Prepend(x: Bytes, r: Result): Result {
    if r.Ok? then Ok(x + r.out) else r
  }

  lemma PrependTwice(a: Bytes, b: Bytes, r: Result)
    ensures Prepend(a, Prepend(b, r)) == Prepend(a + b, r)
  {
    if r.Ok? { assert a + (b + r.out) == a + b + r.out; }
  }

  // Left to right, values in place of references, stopping at the first empty one.
  function Render(env: map<Bytes, Bytes>, t: Text, line: nat): Result {
    match t
    case End(tail) => Ok(tail)
    case Cons(p, rest) =>
      if Unresolved(env, p) then MissingVariable(p.name, line)
      else Prepend(Value(env, p), Render(env, rest, line + PieceNewlines(p)))
  }

  predicate Resolved(env: map<Bytes, Bytes>, t: Text) {
    t.Cons? ==> !Unresolved(env, t.piece) && Resolved(env, t.rest)
  }

  function Substitute(env: map<Bytes, Bytes>, t: Text): Bytes {
    match t
    case End(tail) => tail
    case Cons(p, rest) => Value(env, p) + Substitute(env, rest)
  }

  // When every reference has a value the output is the same text with the
  // values in place, taken as they are.
  lemma {:induction false} RenderOkIff(env: map<Bytes, Bytes>, t: Text, line: nat)
    ensures Render(env, t, line).Ok? <==> Resolved(env, t)
    ensures Resolved(env, t) ==> Render(env, t, line) == Ok(Substitute(env, t))
  {
    if t.Cons? { RenderOkIff(env, t.rest, line + PieceNewlines(t.piece)); }
  }

  // ---------- where the error comes from ----------

  function Append(a: Text, b: Text): Text {
    match a
    case End(_) => b
    case Cons(p, rest) => Cons(p, Append(rest, b))
  }

  function Tail(t: Text): Bytes {
    if t.End? then t.tail else Tail(t.rest)
  }

  lemma {:induction false} AppendSpells(a: Text, b: Text)
    requires WellFormed(a) && WellFormed(b) && Tail(a) == []
    ensures WellFormed(Append(a, b)) && Spell(Append(a, b)) == Spell(a) + Spell(b)
  {
    match a
    case End(_) => assert [] + Spell(b) == Spell(b);
    case Cons(p, rest) =>
      AppendSpells(rest, b);
      assert SpellPiece(p) + (Spell(rest) + Spell(b)) == SpellPiece(p) + Spell(rest) + Spell(b);
  }

  function TextNewlines(t: Text): nat {
    if t.End? then 0 else PieceNewlines(t.piece) + TextNewlines(t.rest)
  }

  lemma {:induction false} TextNewlinesExact(t: Text)
    requires WellFormed(t) && Tail(t) == []
    ensures TextNewlines(t) == Newlines(Spell(t))
  {
    if t.Cons? {
      TextNewlinesExact(t.rest);
      PieceNewlinesExact(t.piece);
      NewlinesConcat(SpellPiece(t.piece), Spell(t.rest));
    }
  }

  lemma {:induction false} RenderAppend(env: map<Bytes, Bytes>, a: Text, t: Text, line: nat)
    requires Resolved(env, a) && Render(env, t, line + TextNewlines(a)).MissingVariable?
    ensures Render(env, Append(a, t), line) == Render(env, t, line + TextNewlines(a))
  {
    if a.Cons? { RenderAppend(env, a.rest, t, line + PieceNewlines(a.piece)); }
  }

  // The pieces before the first unresolved reference, and what follows it.
  lemma {:induction false} SplitAtUnresolved(env: map<Bytes, Bytes>, t: Text) returns (a: Text, p: Piece, b: Text)
    requires WellFormed(t) && !Resolved(env, t)
    ensures WellFormed(a) && Tail(a) == [] && Resolved(env, a)
    ensures WellFormedPiece(p) && Unresolved(env, p) && WellFormed(b)
    ensures t == Append(a, Cons(p, b))
  {
    if Unresolved(env, t.piece) {
      a, p, b := End([]), t.piece, t.rest;
    } else {
      a, p, b := SplitAtUnresolved(env, t.rest);
      a := Cons(t.piece, a);
    }
  }

  // name is referenced right after the complete, fully resolvable text before.
  predicate FailsAfter(env: map<Bytes, Bytes>, s: Bytes, name: Bytes, before: Bytes, after: Bytes) {
    && s == before + SpellPiece(Ref(name)) + after
    && IsName(name) && (name !in env || env[name] == [])
    && Tail(Parse(before)) == [] && Resolved(env, Parse(before))
  }

  lemma FailurePoint(env: map<Bytes, Bytes>, s: Bytes) returns (before: Bytes, after: Bytes)
    requires Render(env, Parse(s), 1).MissingVariable?
    ensures FailsAfter(env, s, Render(env, Parse(s), 1).variable, before, after)
    ensures Render(env, Parse(s), 1).line == 1 + Newlines(before)
  {
    var t := Parse(s);
    ParseUnique(s, t);
    RenderOkIff(env, t, 1);
    var a, p, b := SplitAtUnresolved(env, t);
    TextFails(env, a, p.name, b);
    ParseUnique(Spell(a), a);
    before, after := Spell(a), Spell(b);
  }

  // The error names the leftmost reference with an empty value, and its line is
  // one plus the newlines before it.
  lemma ErrorIff(env: map<Bytes, Bytes>, s: Bytes, name: Bytes, line: nat)
    ensures Render(env, Parse(s), 1) == MissingVariable(name, line) <==>
            exists before, after :: FailsAfter(env, s, name, before, after) && line == 1 + Newlines(before)
  {
    if Render(env, Parse(s), 1) == MissingVariable(name, line) {
      var before, after := FailurePoint(env, s);
    }
    forall before, after | FailsAfter(env, s, name, before, after)
      ensures Render(env, Parse(s), 1) == MissingVariable(name, 1 + Newlines(before))
    {
      LeftmostFails(env, s, name, before, after);
    }
  }

  lemma TextFails(env: map<Bytes, Bytes>, a: Text, name: Bytes, b: Text)
    requires WellFormed(a) && Tail(a) == [] && Resolved(env, a)
    requires IsName(name) && Getenv(env, name) == [] && WellFormed(b)
    ensures var t := Append(a, Cons(Ref(name), b));
            && WellFormed(t) && Spell(t) == Spell(a) + SpellPiece(Ref(name)) + Spell(b)
            && Render(env, t, 1) == MissingVariable(name, 1 + Newlines(Spell(a)))
  {
    var c := Cons(Ref(name), b);
    AppendSpells(a, c);
    RenderAppend(env, a, c, 1);
    TextNewlinesExact(a);
    assert Spell(a) + (SpellPiece(Ref(name)) + Spell(b)) == Spell(a) + SpellPiece(Ref(name)) + Spell(b);
  }

  lemma LeftmostFails(env: map<Bytes, Bytes>, s: Bytes, name: Bytes, before: Bytes, after: Bytes)
    requires FailsAfter(env, s, name, before, after)
    ensures Render(env, Parse(s), 1) == MissingVariable(name, 1 + Newlines(before))
  {
    var a, b := Parse(before), Parse(after);
    ParseUnique(before, a);
    ParseUnique(after, b);
    TextFails(env, a, name, b);
    ParseUnique(s, Append(a, Cons(Ref(name), b)));
  }

  // ---------- the scanner ----------

  datatype ScanState = Nominal | AfterToken | InVar

  // What remains to be done from position j on.
  function Rest(env: map<Bytes, Bytes>, s: Bytes, j: nat): Result
    requires j <= |s|
  {
    Render(env, ParseAt(s, j), LineAt(s, j))
  }

  function LineAt(s: Bytes, j: nat): nat
    requires j <= |s|
  {
    if j == 0 then 1 else LineAt(s, j - 1) + if s[j - 1] == NEWLINE then 1 else 0
  }

  lemma {:induction false} LineAtExact(s: Bytes, j: nat)
    requires j <= |s|
    ensures LineAt(s, j) == 1 + Newlines(s[..j])
  {
    if j == 0 {
    } else {
      LineAtExact(s, j - 1);
      assert s[..j][..j - 1] == s[..j - 1];
    }
  }

  lemma LineAfterPiece(s: Bytes, j: nat, p: Piece, i: nat)
    requires j <= i <= |s| && WellFormedPiece(p) && s[j..i] == SpellPiece(p)
    ensures LineAt(s, i) == LineAt(s, j) + PieceNewlines(p)
  {
    LineAtExact(s, i);
    LineAtExact(s, j);
    PieceNewlinesExact(p);
    assert s[..i] == s[..j] + s[j..i];
    NewlinesConcat(s[..j], SpellPiece(p));
  }

  lemma RestPiece(env: map<Bytes, Bytes>, s: Bytes, j: nat, p: Piece, i: nat)
    requires j <= i <= |s| && WellFormedPiece(p) && s[j..i] == SpellPiece(p)
    ensures Rest(env, s, j) ==
            if Unresolved(env, p) then MissingVariable(p.name, LineAt(s, i))
            else Prepend(Value(env, p), Rest(env, s, i))
  {
    HeadIs(s, j, p, i);
    LineAfterPiece(s, j, p, i);
  }

  // The start of the piece being scanned.
  function PieceStart(state: ScanState, i: int, chunkEnd: int): int {
    if state == Nominal then i else chunkEnd
  }

  // The scanner's variables, besides position and line.
  datatype Scan = Scan(state: ScanState, chunkStart: int, chunkEnd: int, variable: Bytes, output: Bytes)

  // Output and current chunk make up the expansion of everything before the
  // piece being scanned, and the scanner remembers what it saw of that piece.
  ghost predicate Scanned(goal: Result, env: map<Bytes, Bytes>, s: Bytes, i: nat, c: Scan) {
    var j := PieceStart(c.state, i, c.chunkEnd);
    && 0 <= c.chunkStart <= j <= i <= |s|
    && (c.state == Nominal ==> c.chunkEnd == -1)
    && (c.state == AfterToken ==> s[j..i] == [DOLLAR])
    && (c.state == InVar ==> s[j..i] == [DOLLAR, OPEN] + c.variable && IsName(c.variable))
    && forall r :: Remains(env, s, j, r) ==> goal == Prepend(c.output + s[c.chunkStart..j], r)
  }

  // r is what the text from position j on expands to.
  ghost predicate Remains(env: map<Bytes, Bytes>, s: Bytes, j: nat, r: Result) {
    j <= |s| && r == Rest(env, s, j)
  }

  // The literal piece that byte b completes.
  function Literal(c: Scan, b: Byte): Piece {
    match c.state
    case Nominal => Plain(b)
    case AfterToken => LoneDollar(b)
    case InVar => Broken(c.variable, b)
  }

  lemma LiteralSpelled(goal: Result, env: map<Bytes, Bytes>, s: Bytes, i: nat, c: Scan)
    requires i < |s| && Scanned(goal, env, s, i, c)
    ensures s[PieceStart(c.state, i, c.chunkEnd)..i + 1] == SpellPiece(Literal(c, s[i]))
  {
    var j := PieceStart(c.state, i, c.chunkEnd);
    assert s[j..i + 1] == s[j..i] + [s[i]];
  }

  // A finished literal piece just becomes part of the current chunk.
  lemma LiteralDone(goal: Result, env: map<Bytes, Bytes>, s: Bytes, i: nat, c: Scan)
    requires i < |s| && Scanned(goal, env, s, i, c) && WellFormedPiece(Literal(c, s[i]))
    ensures Scanned(goal, env, s, i + 1, c.(state := Nominal, chunkEnd := -1))
  {
    var j := PieceStart(c.state, i, c.chunkEnd);
    LiteralSpelled(goal, env, s, i, c);
    RestPiece(env, s, j, Literal(c, s[i]), i + 1);
    assert Remains(env, s, j, Rest(env, s, j));
    ChunkGrows(c.output, s, c.chunkStart, j, i + 1, Rest(env, s, i + 1));
  }

  lemma ChunkGrows(output: Bytes, s: Bytes, start: nat, j: nat, i: nat, r: Result)
    requires start <= j <= i <= |s|
    ensures Prepend(output + s[start..j], Prepend(s[j..i], r)) == Prepend(output + s[start..i], r)
  {
    PrependTwice(output + s[start..j], s[j..i], r);
    assert output + s[start..j] + s[j..i] == output + s[start..i];
  }

  lemma ReferenceDone(goal: Result, env: map<Bytes, Bytes>, s: Bytes, i: nat, c: Scan)
    requires i < |s| && s[i] == CLOSE && c.state == InVar && Scanned(goal, env, s, i, c)
    ensures Getenv(env, c.variable) == [] ==> goal == MissingVariable(c.variable, LineAt(s, i + 1))
    ensures Getenv(env, c.variable) != [] ==>
              Scanned(goal, env, s, i + 1,
                      Scan(Nominal, i + 1, -1, c.variable, c.output + s[c.chunkStart..c.chunkEnd] + Getenv(env, c.variable)))
  {
    var j, value := c.chunkEnd, Getenv(env, c.variable);
    assert s[j..i + 1] == s[j..i] + [s[i]];
    assert Remains(env, s, j, Rest(env, s, j));
    RestPiece(env, s, j, Ref(c.variable), i + 1);
    PrependTwice(c.output + s[c.chunkStart..j], value, Rest(env, s, i + 1));
    assert c.output + s[c.chunkStart..j] + value + s[i + 1..i + 1] == c.output + s[c.chunkStart..j] + value;
  }

  // A byte that only extends the piece being scanned.
  lemma PieceGrows(goal: Result, env: map<Bytes, Bytes>, s: Bytes, i: nat, c: Scan)
    requires i < |s| && Scanned(goal, env, s, i, c)
    ensures c.state == Nominal && s[i] == DOLLAR ==>
              Scanned(goal, env, s, i + 1, c.(state := AfterToken, chunkEnd := i))
    ensures c.state == AfterToken && s[i] == OPEN ==>
              Scanned(goal, env, s, i + 1, c.(state := InVar, variable := []))
    ensures c.state == InVar && IsAlphanumeric(s[i]) ==>
              Scanned(goal, env, s, i + 1, c.(variable := c.variable + [s[i]]))
  {
    var j := PieceStart(c.state, i, c.chunkEnd);
    assert s[j..i + 1] == s[j..i] + [s[i]];
    assert [DOLLAR, OPEN] + c.variable + [s[i]] == [DOLLAR, OPEN] + (c.variable + [s[i]]);
  }

  lemma ScanStarts(env: map<Bytes, Bytes>, s: Bytes)
    ensures Scanned(Render(env, Parse(s), 1), env, s, 0, Scan(Nominal, 0, -1, [], []))
  {
  }

  lemma ScanEnds(goal: Result, env: map<Bytes, Bytes>, s: Bytes, c: Scan)
    requires Scanned(goal, env, s, |s|, c)
    ensures goal == Ok(c.output + s[c.chunkStart..])
  {
    var j := PieceStart(c.state, |s|, c.chunkEnd);
    assert s[j..|s|] == s[j..];
    if c.state == InVar {
      assert s[j..][2..] == c.variable;
    }
    assert Remains(env, s, j, Rest(env, s, j));
    NoHead(s, j);
    assert c.output + s[c.chunkStart..j] + s[j..] == c.output + s[c.chunkStart..];
  }

  method ExpandEnv(s: Bytes, env: map<Bytes, Bytes>) returns (r: Result)
    ensures r == Render(env, Parse(s), 1)
  {
    var output: Bytes := [];
    var variable: Bytes := [];
    var chunkStart := 0;
    var line := 1;
    var state := Nominal;
    var chunkEnd := -1;
    ghost var goal := Render(env, Parse(s), 1);
    ScanStarts(env, s);
    for i := 0 to |s|
      invariant line == LineAt(s, i)
      invariant Scanned(goal, env, s, i, Scan(state, chunkStart, chunkEnd, variable, output))
    {
      ghost var c := Scan(state, chunkStart, chunkEnd, variable, output);
      if s[i] == NEWLINE {
        line := line + 1;
      }
      match state {
        case Nominal =>
          if s[i] == DOLLAR {
            PieceGrows(goal, env, s, i, c);
            state := AfterToken;
            chunkEnd := i;
          } else {
            LiteralDone(goal, env, s, i, c);
          }
        case AfterToken =>
          if s[i] == OPEN {
            PieceGrows(goal, env, s, i, c);
            state := InVar;
            variable := [];
          } else {
            LiteralDone(goal, env, s, i, c);
            state := Nominal;
            chunkEnd := -1;
          }
        case InVar =>
          if s[i] == CLOSE {
            ReferenceDone(goal, env, s, i, c);
            var value := Getenv(env, variable);
            if value == [] {
              return MissingVariable(variable, line);
            }
            output := output + s[chunkStart..chunkEnd];
            output := output + value;
            chunkStart := i + 1;
            chunkEnd := -1;
            state := Nominal;
          } else if IsAlphanumeric(s[i]) {
            PieceGrows(goal, env, s, i, c);
            variable := variable + [s[i]];
          } else {
            LiteralDone(goal, env, s, i, c);
            state := Nominal;
            chunkEnd := -1;
          }
      }
    }
    ScanEnds(goal, env, s, Scan(state, chunkStart, chunkEnd, variable, output));
    output := output + s[chunkStart..];
    r := Ok(output);
  }

  predicate NoReference(t: Text) {
    t.Cons? ==> !t.piece.Ref? && NoReference(t.rest)
  }

  // Text without any complete reference passes through unchanged, whatever the environment.
  lemma NoReferenceNoChange(env: map<Bytes, Bytes>, s: Bytes)
    requires NoReference(Parse(s))
    ensures Render(env, Parse(s), 1) == Ok(s)
  {
    ParseUnique(s, Parse(s));
    SubstituteIsSpelling(env, Parse(s));
    RenderOkIff(env, Parse(s), 1);
  }

  lemma {:induction false} SubstituteIsSpelling(env: map<Bytes, Bytes>, t: Text)
    requires NoReference(t)
    ensures Resolved(env, t) && Substitute(env, t) == Spell(t)
  {
    if t.Cons? { SubstituteIsSpelling(env, t.rest); }
  }

  // ---------- a reference is replaced by its value, the rest is untouched ----------

  lemma {:induction false} ResolvedAppend(env: map<Bytes, Bytes>, a: Text, b: Text)
    requires Tail(a) == []
    ensures Resolved(env, Append(a, b)) <==> Resolved(env, a) && Resolved(env, b)
    ensures Substitute(env, Append(a, b)) == Substitute(env, a) + Substitute(env, b)
  {
    match a
    case End(_) => assert [] + Substitute(env, b) == Substitute(env, b);
    case Cons(p, rest) =>
      ResolvedAppend(env, rest, b);
      assert Value(env, p) + (Substitute(env, rest) + Substitute(env, b)) ==
             Value(env, p) + Substitute(env, rest) + Substitute(env, b);
  }

  lemma TextReplaced(env: map<Bytes, Bytes>, a: Text, name: Bytes, b: Text)
    requires Tail(a) == [] && name in env && env[name] != []
    ensures var all := Render(env, Append(a, Cons(Ref(name), b)), 1);
            var left, right := Render(env, a, 1), Render(env, b, 1);
            && (all.Ok? <==> left.Ok? && right.Ok?)
            && (all.Ok? ==> all.out == left.out + env[name] + right.out)
  {
    var c := Cons(Ref(name), b);
    RenderOkIff(env, Append(a, c), 1);
    RenderOkIff(env, a, 1);
    RenderOkIff(env, b, 1);
    ResolvedAppend(env, a, c);
    assert Substitute(env, a) + (env[name] + Substitute(env, b)) == Substitute(env, a) + env[name] + Substitute(env, b);
  }

  function Around(before: Bytes, name: Bytes, after: Bytes): Bytes {
    before + [DOLLAR, OPEN] + name + [CLOSE] + after
  }

  lemma SpellAround(a: Text, name: Bytes, b: Text)
    requires WellFormed(a) && Tail(a) == [] && IsName(name) && WellFormed(b)
    ensures WellFormed(Append(a, Cons(Ref(name), b)))
    ensures Spell(Append(a, Cons(Ref(name), b))) == Around(Spell(a), name, Spell(b))
  {
    var c := Cons(Ref(name), b);
    AppendSpells(a, c);
    assert Spell(a) + ([DOLLAR, OPEN] + name + [CLOSE] + Spell(b)) == Around(Spell(a), name, Spell(b));
  }

  lemma ReferenceSplits(before: Bytes, name: Bytes, after: Bytes, a: Text, b: Text)
    requires a == Parse(before) && b == Parse(after) && IsName(name) && Tail(a) == []
    ensures Parse(Around(before, name, after)) == Append(a, Cons(Ref(name), b))
  {
    ParseUnique(before, a);
    ParseUnique(after, b);
    SpellAround(a, name, b);
    ParseUnique(Around(before, name, after), Append(a, Cons(Ref(name), b)));
  }

  // A complete reference splits the expansion: what stands before it and after
  // it expands on its own, with the variable's value in between.
  lemma ReferenceReplaced(env: map<Bytes, Bytes>, before: Bytes, name: Bytes, after: Bytes)
    requires IsName(name) && name in env && env[name] != [] && Tail(Parse(before)) == []
    ensures var all := Render(env, Parse(Around(before, name, after)), 1);
            var left, right := Render(env, Parse(before), 1), Render(env, Parse(after), 1);
            && (all.Ok? <==> left.Ok? && right.Ok?)
            && (all.Ok? ==> all.out == left.out + env[name] + right.out)
  {
    ReferenceSplits(before, name, after, Parse(before), Parse(after));
    TextReplaced(env, Parse(before), name, Parse(after));
  }
}
