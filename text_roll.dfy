/** The text-roll tokenizer: it walks a React node and splits its text into
    word, white-space and line-break tokens, each with a key built from the
    number of tokens emitted before it. The functions below say what the
    tokens are and the lemmas what shape they have; the `Tokenizer` class
    builds them the way the component does, by appending to one list in
    loops. */
module TextRoll {
  import opened JsText

  /** A React node, as far as the tokenizer tells nodes apart. */
  datatype Node =
    | Nothing                 // null or undefined
    | Str(s: string)
    | Num(repr: string)       // a number, given by its `String(n)` form
    | Arr(items: seq<Node>)
    | Elem(children: Node)    // a valid element, by its `props.children`
    | Other                   // booleans and anything else the walk skips

  /** A token key `t-<pos>-<part>` or `br-<pos>-<part>`: `pos` is the number
      of tokens emitted before this one, `part` the index of the piece (or
      of the line) it came from. The prefix follows the token's kind. */
  datatype Key = Key(pos: nat, part: nat)

  datatype Token = Text(key: Key, text: string) | Br(key: Key)

  /** The two characters backslash and `n`, which a word may spell out to
      ask for a line break. */
  const EscapedBreak: string := ['\\', 'n']

  // ---------------------------------------------------------------------
  // Splitting a line into words and white space
  // ---------------------------------------------------------------------

  /** `/^\s+$/`: the classification the component uses to tell white-space
      tokens from words. */
  predicate IsSpaceText(t: string)
  {
    t != [] && IsBlank(t)
  }

  /** A non-empty run of characters of one class. */
  predicate Uniform(p: string)
  {
    p != [] && (IsBlank(p) || HasNoSpace(p))
  }

  /** Neighbouring non-empty pieces alternate between white space and
      words. */
  ghost predicate Alternating(ps: seq<string>)
  {
    forall j, k {:trigger ps[j], ps[k]} :: 0 <= j < k < |ps| && k == j + 1 && ps[j] != "" && ps[k] != "" ==>
      IsSpaceText(ps[j]) != IsSpaceText(ps[k])
  }

  function Concat(ps: seq<string>): string
  {
    if ps == [] then [] else ps[0] + Concat(ps[1..])
  }

  /** The length of the longest prefix of `t` whose characters are of the
      same class as its first. */
  function RunLength(t: string): (n: nat)
    requires t != []
    ensures 1 <= n <= |t|
  {
    if |t| == 1 || IsSpace(t[1]) != IsSpace(t[0]) then 1 else 1 + RunLength(t[1..])
  }

  /** `t` cut into maximal runs of white space and of other characters. */
  function Runs(t: string): seq<string>
    decreases |t|
  {
    if t == [] then []
    else
      var n := RunLength(t);
      [t[..n]] + Runs(t[n..])
  }

  /** `t.split(/(\s+)/)`: the runs, with an empty piece in front when `t`
      is empty or starts with white space and one behind when it ends with
      white space. */
  function SplitWs(t: string): (parts: seq<string>)
    ensures |parts| >= 1
  {
    (if t == [] || IsSpace(t[0]) then [""] else []) + Runs(t) + (if t != [] && IsSpace(t[|t| - 1]) then [""] else [])
  }

  lemma {:induction false} RunLengthClass(t: string)
    requires t != []
    ensures forall i :: 0 <= i < RunLength(t) ==> IsSpace(t[i]) == IsSpace(t[0])
    ensures RunLength(t) < |t| ==> IsSpace(t[RunLength(t)]) != IsSpace(t[0])
  {
    if !(|t| == 1 || IsSpace(t[1]) != IsSpace(t[0])) {
      RunLengthClass(t[1..]);
      forall i | 1 <= i < RunLength(t) ensures IsSpace(t[i]) == IsSpace(t[0]) {
        assert t[i] == t[1..][i - 1];
      }
    }
  }

  lemma UniformClass(p: string)
    requires Uniform(p)
    ensures IsSpaceText(p) == IsSpace(p[0])
  {
  }

  lemma {:induction false} ConcatAppend(a: seq<string>, b: seq<string>)
    ensures Concat(a + b) == Concat(a) + Concat(b)
  {
    if a == [] {
      assert a + b == b;
    } else {
      assert (a + b)[1..] == a[1..] + b;
      ConcatAppend(a[1..], b);
    }
  }

  /** The runs join back to `t`. */
  lemma {:induction false} RunsConcat(t: string)
    ensures Concat(Runs(t)) == t
    decreases |t|
  {
    if t != [] {
      var n := RunLength(t);
      RunsConcat(t[n..]);
      assert Runs(t) == [t[..n]] + Runs(t[n..]);
      assert Runs(t)[1..] == Runs(t[n..]);
      assert t == t[..n] + t[n..];
    }
  }

  /** Each run is a non-empty run of one class, the first starts with the
      first character of `t`, and neighbouring runs are of different
      classes. */
  lemma {:induction false} RunsShape(t: string)
    ensures forall k :: 0 <= k < |Runs(t)| ==> Uniform(Runs(t)[k])
    ensures Alternating(Runs(t))
    ensures t != [] ==> Runs(t)[0] != [] && Runs(t)[0][0] == t[0]
    decreases |t|
  {
    if t != [] {
      var n := RunLength(t);
      var head := t[..n];
      var rest := Runs(t[n..]);
      var rs := Runs(t);
      assert rs == [head] + rest;
      RunLengthClass(t);
      RunsShape(t[n..]);
      assert Uniform(head) by {
        assert forall i :: 0 <= i < n ==> head[i] == t[i];
      }
      UniformClass(head);
      forall j, k | 0 <= j < k < |rs| && k == j + 1 && rs[j] != "" && rs[k] != ""
        ensures IsSpaceText(rs[j]) != IsSpaceText(rs[k])
      {
        if j == 0 {
          UniformClass(rest[0]);
        } else {
          assert rs[j] == rest[j - 1] && rs[k] == rest[k - 1];
        }
      }
    }
  }

  /** Each piece is empty or a run of one class. */
  ghost predicate PiecesUniform(parts: seq<string>)
  {
    forall k :: 0 <= k < |parts| ==> parts[k] == "" || Uniform(parts[k])
  }

  /** Only the first and the last piece may be empty. */
  ghost predicate EmptyOnlyAtEnds(parts: seq<string>)
  {
    forall k :: 0 <= k < |parts| && parts[k] == "" ==> k == 0 || k == |parts| - 1
  }

  /** Empty pieces at either end of alternating runs keep the runs
      alternating and stay at the ends. */
  lemma FramedRuns(front: seq<string>, rs: seq<string>, back: seq<string>)
    requires front == [] || front == [""]
    requires back == [] || back == [""]
    requires forall k :: 0 <= k < |rs| ==> Uniform(rs[k])
    requires Alternating(rs)
    ensures PiecesUniform(front + rs + back)
    ensures EmptyOnlyAtEnds(front + rs + back)
    ensures Alternating(front + rs + back)
  {
    var parts := front + rs + back;
    var f := |front|;
    assert forall k :: f <= k < f + |rs| ==> parts[k] == rs[k - f];
    assert forall k :: 0 <= k < f ==> parts[k] == "";
    assert forall k :: f + |rs| <= k < |parts| ==> parts[k] == "" && k == |parts| - 1;
  }

  /** The pieces of `split(/(\s+)/)` join back to `t`. */
  lemma SplitWsConcat(t: string)
    ensures Concat(SplitWs(t)) == t
  {
    var front: seq<string> := if t == [] || IsSpace(t[0]) then [""] else [];
    var back: seq<string> := if t != [] && IsSpace(t[|t| - 1]) then [""] else [];
    var rs := Runs(t);
    assert SplitWs(t) == front + rs + back;
    RunsConcat(t);
    ConcatFramed(front, rs, back);
  }

  /** Empty pieces at either end add nothing to the joined text. */
  lemma ConcatFramed(front: seq<string>, rs: seq<string>, back: seq<string>)
    requires front == [] || front == [""]
    requires back == [] || back == [""]
    ensures Concat(front + rs + back) == Concat(rs)
  {
    ConcatAppend(front, rs);
    ConcatAppend(front + rs, back);
    assert Concat(front) == [] by { if front != [] { assert front[1..] == []; } }
    assert Concat(back) == [] by { if back != [] { assert back[1..] == []; } }
  }

  /** Each piece of `split(/(\s+)/)` is empty or a run of one class; only
      the first and the last may be empty; and neighbouring non-empty
      pieces alternate between white space and words. */
  lemma SplitWsPieces(t: string)
    ensures PiecesUniform(SplitWs(t)) && EmptyOnlyAtEnds(SplitWs(t)) && Alternating(SplitWs(t))
  {
    var front: seq<string> := if t == [] || IsSpace(t[0]) then [""] else [];
    var back: seq<string> := if t != [] && IsSpace(t[|t| - 1]) then [""] else [];
    assert SplitWs(t) == front + Runs(t) + back;
    RunsShape(t);
    FramedRuns(front, Runs(t), back);
  }

  // ---------------------------------------------------------------------
  // The tokens
  // ---------------------------------------------------------------------

  /** What one piece of `split` contributes: a break for the escaped break,
      nothing for an empty piece, a text token otherwise. */
  function PartToken(p: string, part: nat, pos: nat): seq<Token>
  {
    if p == EscapedBreak then [Br(Key(pos, part))]
    else if |p| > 0 then [Text(Key(pos, part), p)]
    else []
  }

  /** The tokens of the pieces `parts`, the first numbered `part`, with
      `pos` tokens already emitted. */
  function PartsTokens(parts: seq<string>, part: nat, pos: nat): seq<Token>
    decreases |parts|
  {
    if parts == [] then []
    else
      var t := PartToken(parts[0], part, pos);
      t + PartsTokens(parts[1..], part + 1, pos + |t|)
  }

  /** `pushText(t)`: the tokens of one line of text. */
  function TextTokens(t: string, pos: nat): seq<Token>
  {
    PartsTokens(SplitWs(t), 0, pos)
  }

  /** `replace(/\r\n?/g, '\n')`: every CR LF pair and every lone CR becomes
      a LF. */
  function Normalize(s: string): string
  {
    if s == [] then []
    else if s[0] == '\r' then "\n" + Normalize(if |s| > 1 && s[1] == '\n' then s[2..] else s[1..])
    else [s[0]] + Normalize(s[1..])
  }

  /** `split('\n')`: the lines between the line feeds. */
  function SplitLines(s: string): (lines: seq<string>)
    ensures |lines| >= 1
  {
    if s == [] then [""]
    else
      var rest := SplitLines(s[1..]);
      if s[0] == '\n' then [""] + rest
      else [[s[0]] + rest[0]] + rest[1..]
  }

  /** The lines joined with line feeds. */
  function JoinLines(lines: seq<string>): string
    requires |lines| >= 1
  {
    if |lines| == 1 then lines[0] else lines[0] + "\n" + JoinLines(lines[1..])
  }

  /** `split('\n').forEach(...)`: the tokens of the lines `lines`, the
      first numbered `line`, each line's tokens given by `lineTokens` and
      followed by a break unless it is the last line. */
  function LinesWith(lineTokens: (string, nat) -> seq<Token>, lines: seq<string>, line: nat, pos: nat): seq<Token>
    decreases |lines|
  {
    if lines == [] then []
    else
      var t := lineTokens(lines[0], pos);
      var b := if |lines| > 1 then [Br(Key(pos + |t|, line))] else [];
      t + b + LinesWith(lineTokens, lines[1..], line + 1, pos + |t| + |b|)
  }

  /** The tokens of the lines, each line's text split by `pushText`. */
  function LinesTokens(lines: seq<string>, line: nat, pos: nat): seq<Token>
  {
    LinesWith(TextTokens, lines, line, pos)
  }

  /** The tokens of a string: newlines normalised, then line by line. */
  function StrTokens(s: string, pos: nat): seq<Token>
  {
    LinesTokens(SplitLines(Normalize(s)), 0, pos)
  }

  /** `walk(n)`, with `pos` tokens already emitted. */
  function WalkTokens(n: Node, pos: nat): seq<Token>
    decreases n
  {
    match n
    case Nothing => []
    case Str(s) => StrTokens(s, pos)
    case Num(repr) => TextTokens(repr, pos)
    case Arr(items) => ItemsTokens(items, pos)
    case Elem(children) => WalkTokens(children, pos)
    case Other => []
  }

  /** `items.forEach(walk)`: each item's tokens, in order, each starting
      where the previous ended. */
  function ItemsTokens(items: seq<Node>, pos: nat): seq<Token>
    decreases items
  {
    if items == [] then []
    else
      var t := WalkTokens(items[0], pos);
      t + ItemsTokens(items[1..], pos + |t|)
  }

  // ---------------------------------------------------------------------
  // Keys and text tokens
  // ---------------------------------------------------------------------

  /** The `k`-th token's key records `pos + k`, the number of tokens
      emitted before it. */
  ghost predicate KeyedFrom(toks: seq<Token>, pos: nat)
  {
    forall k :: 0 <= k < |toks| ==> toks[k].key.pos == pos + k
  }

  /** Every text token is non-empty and is all white space or has none. */
  ghost predicate WellFormed(toks: seq<Token>)
  {
    forall k :: 0 <= k < |toks| && toks[k].Text? ==> Uniform(toks[k].text)
  }

  /** Both facts survive concatenation when the second part is keyed from
      where the first ends. */
  lemma Joined(a: seq<Token>, b: seq<Token>, pos: nat)
    requires KeyedFrom(a, pos) && KeyedFrom(b, pos + |a|)
    requires WellFormed(a) && WellFormed(b)
    ensures KeyedFrom(a + b, pos) && WellFormed(a + b)
  {
    assert forall k :: |a| <= k < |a + b| ==> (a + b)[k] == b[k - |a|];
  }

  lemma PiecesUniformTail(parts: seq<string>)
    requires parts != [] && PiecesUniform(parts)
    ensures PiecesUniform(parts[1..])
  {
    assert forall k :: 0 <= k < |parts[1..]| ==> parts[1..][k] == parts[k + 1];
  }

  lemma PartTokenShape(p: string, part: nat, pos: nat)
    requires p == "" || Uniform(p)
    ensures KeyedFrom(PartToken(p, part, pos), pos) && WellFormed(PartToken(p, part, pos))
  {
  }

  lemma {:induction false} PartsTokensShape(parts: seq<string>, part: nat, pos: nat)
    requires PiecesUniform(parts)
    ensures KeyedFrom(PartsTokens(parts, part, pos), pos)
    ensures WellFormed(PartsTokens(parts, part, pos))
    decreases |parts|
  {
    if parts != [] {
      var t := PartToken(parts[0], part, pos);
      var rest := PartsTokens(parts[1..], part + 1, pos + |t|);
      assert PartsTokens(parts, part, pos) == t + rest;
      PiecesUniformTail(parts);
      PartsTokensShape(parts[1..], part + 1, pos + |t|);
      PartTokenShape(parts[0], part, pos);
      Joined(t, rest, pos);
    }
  }

  lemma TextTokensShape(t: string, pos: nat)
    ensures KeyedFrom(TextTokens(t, pos), pos) && WellFormed(TextTokens(t, pos))
  {
    SplitWsPieces(t);
    PartsTokensShape(SplitWs(t), 0, pos);
  }

  lemma {:induction false} LinesWithShape(f: (string, nat) -> seq<Token>, lines: seq<string>, line: nat, pos: nat)
    requires forall l, p: nat :: KeyedFrom(f(l, p), p) && WellFormed(f(l, p))
    ensures KeyedFrom(LinesWith(f, lines, line, pos), pos) && WellFormed(LinesWith(f, lines, line, pos))
    decreases |lines|
  {
    if lines != [] {
      var t := f(lines[0], pos);
      var b := if |lines| > 1 then [Br(Key(pos + |t|, line))] else [];
      var rest := LinesWith(f, lines[1..], line + 1, pos + |t| + |b|);
      assert LinesWith(f, lines, line, pos) == (t + b) + rest;
      LinesWithShape(f, lines[1..], line + 1, pos + |t| + |b|);
      assert KeyedFrom(b, pos + |t|) && WellFormed(b);
      Joined(t, b, pos);
      Joined(t + b, rest, pos);
    }
  }

  lemma LinesTokensShape(lines: seq<string>, line: nat, pos: nat)
    ensures KeyedFrom(LinesTokens(lines, line, pos), pos) && WellFormed(LinesTokens(lines, line, pos))
  {
    forall l, p: nat ensures KeyedFrom(TextTokens(l, p), p) && WellFormed(TextTokens(l, p)) {
      TextTokensShape(l, p);
    }
    LinesWithShape(TextTokens, lines, line, pos);
  }

  /** Whatever is walked, the keys number the tokens from `pos` on and the
      text tokens are non-empty runs of one class. */
  lemma {:induction false} WalkTokensShape(n: Node, pos: nat)
    ensures KeyedFrom(WalkTokens(n, pos), pos) && WellFormed(WalkTokens(n, pos))
    decreases n
  {
    match n
    case Nothing =>
    case Str(s) => LinesTokensShape(SplitLines(Normalize(s)), 0, pos);
    case Num(repr) => TextTokensShape(repr, pos);
    case Arr(items) => ItemsTokensShape(items, pos);
    case Elem(children) => WalkTokensShape(children, pos);
    case Other =>
  }

  lemma {:induction false} ItemsTokensShape(items: seq<Node>, pos: nat)
    ensures KeyedFrom(ItemsTokens(items, pos), pos) && WellFormed(ItemsTokens(items, pos))
    decreases items
  {
    if items != [] {
      var t := WalkTokens(items[0], pos);
      var rest := ItemsTokens(items[1..], pos + |t|);
      assert ItemsTokens(items, pos) == t + rest;
      WalkTokensShape(items[0], pos);
      ItemsTokensShape(items[1..], pos + |t|);
      Joined(t, rest, pos);
    }
  }

  /** Neighbouring text tokens alternate between white space and words
      (`isSpace` flips at every step). */
  ghost predicate TextAlternates(toks: seq<Token>)
  {
    forall j, k {:trigger toks[j], toks[k]} :: 0 <= j < k < |toks| && k == j + 1 && toks[j].Text? && toks[k].Text? ==>
      IsSpaceText(toks[j].text) != IsSpaceText(toks[k].text)
  }

  lemma {:induction false} PartsTokensAlternate(parts: seq<string>, part: nat, pos: nat)
    requires EmptyOnlyAtEnds(parts) && Alternating(parts)
    ensures TextAlternates(PartsTokens(parts, part, pos))
    decreases |parts|
  {
    if parts != [] {
      var t := PartToken(parts[0], part, pos);
      var tail := parts[1..];
      var rest := PartsTokens(tail, part + 1, pos + |t|);
      var toks := PartsTokens(parts, part, pos);
      assert toks == t + rest;
      assert EmptyOnlyAtEnds(tail) by {
        forall k | 0 <= k < |tail| && tail[k] == "" ensures k == 0 || k == |tail| - 1 {
          assert tail[k] == parts[k + 1];
        }
      }
      assert Alternating(tail) by {
        forall j, k | 0 <= j < k < |tail| && k == j + 1 && tail[j] != "" && tail[k] != ""
          ensures IsSpaceText(tail[j]) != IsSpaceText(tail[k])
        {
          assert tail[j] == parts[j + 1] && tail[k] == parts[k + 1];
        }
      }
      PartsTokensAlternate(tail, part + 1, pos + |t|);
      forall j, k | 0 <= j < k < |toks| && k == j + 1 && toks[j].Text? && toks[k].Text?
        ensures IsSpaceText(toks[j].text) != IsSpaceText(toks[k].text)
      {
        if j < |t| {
          NextTextPiece(parts, part, pos);
        } else {
          assert toks[j] == rest[j - |t|] && toks[k] == rest[k - |t|];
        }
      }
    }
  }

  /** When the first piece gives a text token and the second token is a
      text token too, the latter is the second piece. */
  lemma NextTextPiece(parts: seq<string>, part: nat, pos: nat)
    requires EmptyOnlyAtEnds(parts) && Alternating(parts)
    requires parts != [] && parts[0] != EscapedBreak && parts[0] != ""
    requires |PartsTokens(parts, part, pos)| > 1 && PartsTokens(parts, part, pos)[1].Text?
    ensures IsSpaceText(PartsTokens(parts, part, pos)[0].text) != IsSpaceText(PartsTokens(parts, part, pos)[1].text)
  {
    var tail := parts[1..];
    var rest := PartsTokens(tail, part + 1, pos + 1);
    assert PartsTokens(parts, part, pos) == [Text(Key(pos, part), parts[0])] + rest;
    assert tail != [];
    assert tail[0] == parts[1];
    assert rest == PartToken(tail[0], part + 1, pos + 1) + PartsTokens(tail[1..], part + 2, pos + 1 + |PartToken(tail[0], part + 1, pos + 1)|);
    assert parts[1] != EscapedBreak;
    assert rest[0] == Text(Key(pos + 1, part + 1), parts[1]);
  }

  /** Within one line, neighbouring text tokens alternate between white
      space and words. */
  lemma TextTokensAlternate(t: string, pos: nat)
    ensures TextAlternates(TextTokens(t, pos))
  {
    SplitWsPieces(t);
    PartsTokensAlternate(SplitWs(t), 0, pos);
  }

  /** A piece that is exactly backslash-`n` becomes a break whose key
      records its position and its piece index. */
  lemma {:induction false} EscapedPieceIsBreak(parts: seq<string>, part: nat, pos: nat, k: nat)
    requires k < |parts| && parts[k] == EscapedBreak
    ensures exists j :: 0 <= j < |PartsTokens(parts, part, pos)| &&
                        PartsTokens(parts, part, pos)[j] == Br(Key(pos + j, part + k))
    decreases k
  {
    var t := PartToken(parts[0], part, pos);
    var toks := PartsTokens(parts, part, pos);
    if k == 0 {
      assert toks[0] == Br(Key(pos + 0, part + k));
    } else {
      var rest := PartsTokens(parts[1..], part + 1, pos + |t|);
      assert toks == t + rest;
      EscapedPieceIsBreak(parts[1..], part + 1, pos + |t|, k - 1);
      var j :| 0 <= j < |rest| && rest[j] == Br(Key(pos + |t| + j, part + 1 + (k - 1)));
      assert toks[|t| + j] == rest[j];
    }
  }

  // ---------------------------------------------------------------------
  // Rendering the tokens back to text
  // ---------------------------------------------------------------------

  /** The text the tokens display: each text token's text, and a line feed
      for each break. */
  function Render(toks: seq<Token>): string
  {
    if toks == [] then ""
    else (if toks[0].Br? then "\n" else toks[0].text) + Render(toks[1..])
  }

  /** How many breaks there are. */
  function CountBreaks(toks: seq<Token>): nat
  {
    if toks == [] then 0 else (if toks[0].Br? then 1 else 0) + CountBreaks(toks[1..])
  }

  lemma {:induction false} RenderAppend(a: seq<Token>, b: seq<Token>)
    ensures Render(a + b) == Render(a) + Render(b)
    ensures CountBreaks(a + b) == CountBreaks(a) + CountBreaks(b)
  {
    if a == [] {
      assert a + b == b;
    } else {
      assert (a + b)[1..] == a[1..] + b;
      RenderAppend(a[1..], b);
    }
  }

  /** A line none of whose words is an escaped break. */
  ghost predicate PlainLine(line: string)
  {
    EscapedBreak !in SplitWs(line)
  }

  /** Every line is plain. */
  ghost predicate PlainLines(lines: seq<string>)
  {
    forall k :: 0 <= k < |lines| ==> PlainLine(lines[k])
  }

  /** A string none of whose words is an escaped break. */
  ghost predicate PlainText(s: string)
  {
    PlainLines(SplitLines(Normalize(s)))
  }

  lemma {:induction false} PartsTokensRender(parts: seq<string>, part: nat, pos: nat)
    requires EscapedBreak !in parts
    ensures Render(PartsTokens(parts, part, pos)) == Concat(parts)
    ensures CountBreaks(PartsTokens(parts, part, pos)) == 0
    decreases |parts|
  {
    if parts != [] {
      var t := PartToken(parts[0], part, pos);
      var rest := PartsTokens(parts[1..], part + 1, pos + |t|);
      assert PartsTokens(parts, part, pos) == t + rest;
      assert Concat(parts) == parts[0] + Concat(parts[1..]);
      assert parts == [parts[0]] + parts[1..];
      PartTokenRender(parts[0], part, pos);
      PartsTokensRender(parts[1..], part + 1, pos + |t|);
      RenderAppend(t, rest);
    }
  }

  lemma PartTokenRender(p: string, part: nat, pos: nat)
    requires p != EscapedBreak
    ensures Render(PartToken(p, part, pos)) == p && CountBreaks(PartToken(p, part, pos)) == 0
  {
    if p != "" {
      assert [Text(Key(pos, part), p)][1..] == [];
    }
  }

  /** A plain line's tokens display the line itself and hold no break. */
  lemma TextTokensRender(line: string, pos: nat)
    requires PlainLine(line)
    ensures Render(TextTokens(line, pos)) == line
    ensures CountBreaks(TextTokens(line, pos)) == 0
  {
    SplitWsConcat(line);
    PartsTokensRender(SplitWs(line), 0, pos);
  }

  /** What a line, a break and the rest display. */
  lemma RenderBreakBetween(a: seq<Token>, br: Token, b: seq<Token>)
    requires br.Br?
    ensures Render((a + [br]) + b) == Render(a) + "\n" + Render(b)
    ensures CountBreaks((a + [br]) + b) == CountBreaks(a) + 1 + CountBreaks(b)
  {
    RenderAppend(a, [br]);
    RenderAppend(a + [br], b);
    assert [br][1..] == [];
  }

  lemma {:induction false} LinesWithRender(f: (string, nat) -> seq<Token>, lines: seq<string>, line: nat, pos: nat)
    requires |lines| >= 1
    requires forall k, p: nat :: 0 <= k < |lines| ==> Render(f(lines[k], p)) == lines[k] && CountBreaks(f(lines[k], p)) == 0
    ensures Render(LinesWith(f, lines, line, pos)) == JoinLines(lines)
    ensures CountBreaks(LinesWith(f, lines, line, pos)) == |lines| - 1
    decreases |lines|
  {
    var t := f(lines[0], pos);
    assert Render(t) == lines[0] && CountBreaks(t) == 0;
    if |lines| > 1 {
      var br := Br(Key(pos + |t|, line));
      var rest := LinesWith(f, lines[1..], line + 1, pos + |t| + 1);
      assert LinesWith(f, lines, line, pos) == (t + [br]) + rest;
      forall k, p: nat | 0 <= k < |lines[1..]|
        ensures Render(f(lines[1..][k], p)) == lines[1..][k] && CountBreaks(f(lines[1..][k], p)) == 0
      {
        assert lines[1..][k] == lines[k + 1];
      }
      LinesWithRender(f, lines[1..], line + 1, pos + |t| + 1);
      RenderBreakBetween(t, br, rest);
    } else {
      assert lines[1..] == [];
      assert LinesWith(f, lines, line, pos) == t + [] + [];
      assert t + [] + [] == t;
    }
  }

  /** A plain text's lines display the lines joined with line feeds, with
      one break between each two lines. */
  lemma LinesTokensRender(lines: seq<string>, line: nat, pos: nat)
    requires |lines| >= 1
    requires PlainLines(lines)
    ensures Render(LinesTokens(lines, line, pos)) == JoinLines(lines)
    ensures CountBreaks(LinesTokens(lines, line, pos)) == |lines| - 1
  {
    forall k, p: nat | 0 <= k < |lines|
      ensures Render(TextTokens(lines[k], p)) == lines[k] && CountBreaks(TextTokens(lines[k], p)) == 0
    {
      TextTokensRender(lines[k], p);
    }
    LinesWithRender(TextTokens, lines, line, pos);
  }

  /** Putting characters in front of the first line puts them in front of
      the joined text. */
  lemma JoinLinesCons(c: string, lines: seq<string>)
    requires |lines| >= 1
    ensures JoinLines([c + lines[0]] + lines[1..]) == c + JoinLines(lines)
  {
    var ls := [c + lines[0]] + lines[1..];
    assert ls[0] == c + lines[0] && ls[1..] == lines[1..];
    if |lines| > 1 {
      AppendAssoc(c, lines[0], "\n" + JoinLines(lines[1..]));
      AppendAssoc(c + lines[0], "\n", JoinLines(lines[1..]));
      AppendAssoc(lines[0], "\n", JoinLines(lines[1..]));
    }
  }

  /** Splitting at line feeds gives one more line than there are line
      feeds. */
  lemma {:induction false} SplitLinesCount(s: string)
    ensures |SplitLines(s)| == multiset(s)['\n'] + 1
  {
    if s != [] {
      SplitLinesCount(s[1..]);
      assert s == [s[0]] + s[1..];
      assert multiset(s) == multiset([s[0]]) + multiset(s[1..]);
    }
  }

  /** No line holds a line feed. */
  lemma {:induction false} SplitLinesNoBreak(s: string)
    ensures forall k :: 0 <= k < |SplitLines(s)| ==> '\n' !in SplitLines(s)[k]
  {
    if s != [] {
      var rest := SplitLines(s[1..]);
      SplitLinesNoBreak(s[1..]);
      var lines := SplitLines(s);
      if s[0] != '\n' {
        forall k | 0 <= k < |lines| ensures '\n' !in lines[k] {
          if k > 0 { assert lines[k] == rest[k]; }
        }
      } else {
        forall k | 0 <= k < |lines| ensures '\n' !in lines[k] {
          if k > 0 { assert lines[k] == rest[k - 1]; }
        }
      }
    }
  }

  /** Joining the lines with line feeds gives the string back. */
  lemma {:induction false} SplitLinesJoin(s: string)
    ensures JoinLines(SplitLines(s)) == s
  {
    if s != [] {
      var rest := SplitLines(s[1..]);
      SplitLinesJoin(s[1..]);
      assert s == [s[0]] + s[1..];
      var lines := SplitLines(s);
      if s[0] != '\n' {
        JoinLinesCons([s[0]], rest);
      } else {
        assert lines[1..] == rest;
      }
    }
  }

  /** Normalising leaves no carriage return behind. */
  lemma {:induction false} NormalizeRemovesCR(s: string)
    ensures '\r' !in Normalize(s)
    decreases |s|
  {
    if s != [] {
      if s[0] == '\r' {
        NormalizeRemovesCR(if |s| > 1 && s[1] == '\n' then s[2..] else s[1..]);
      } else {
        NormalizeRemovesCR(s[1..]);
      }
    }
  }

  /** A string without carriage returns is already normalised. */
  lemma {:induction false} NormalizeKeepsPlain(s: string)
    requires '\r' !in s
    ensures Normalize(s) == s
  {
    if s != [] {
      assert forall c :: c in s[1..] ==> c in s;
      NormalizeKeepsPlain(s[1..]);
    }
  }

  /** The round trip: for a string with no escaped-break word, the tokens
      display the string with CR LF and lone CR turned into LF, and there
      is exactly one break per line feed of that text. */
  lemma StrTokensRoundTrip(s: string, pos: nat)
    requires PlainText(s)
    ensures Render(StrTokens(s, pos)) == Normalize(s)
    ensures CountBreaks(StrTokens(s, pos)) == multiset(Normalize(s))['\n']
  {
    var lines := SplitLines(Normalize(s));
    SplitLinesCount(Normalize(s));
    SplitLinesJoin(Normalize(s));
    LinesTokensRender(SplitLines(Normalize(s)), 0, pos);
  }

  /** An array's tokens are its first part's tokens followed by its second
      part's, keyed on from where the first ended. */
  lemma {:induction false} ItemsTokensAppend(xs: seq<Node>, ys: seq<Node>, pos: nat)
    ensures ItemsTokens(xs + ys, pos) == ItemsTokens(xs, pos) + ItemsTokens(ys, pos + |ItemsTokens(xs, pos)|)
  {
    if xs == [] {
      assert xs + ys == ys;
    } else {
      var t := WalkTokens(xs[0], pos);
      assert (xs + ys)[0] == xs[0] && (xs + ys)[1..] == xs[1..] + ys;
      ItemsTokensAppend(xs[1..], ys, pos + |t|);
    }
  }

  // ---------------------------------------------------------------------
  // The imperative tokenizer
  // ---------------------------------------------------------------------

  lemma AppendAssoc<T>(a: seq<T>, b: seq<T>, c: seq<T>)
    ensures (a + b) + c == a + (b + c)
  {
  }

  lemma PartsTokensStep(parts: seq<string>, i: nat, pos: nat)
    requires i < |parts|
    ensures PartsTokens(parts[i..], i, pos)
            == PartToken(parts[i], i, pos) + PartsTokens(parts[i + 1..], i + 1, pos + |PartToken(parts[i], i, pos)|)
  {
    assert parts[i..][1..] == parts[i + 1..];
  }

  lemma LinesWithStep(f: (string, nat) -> seq<Token>, lines: seq<string>, i: nat, pos: nat)
    requires i < |lines|
    ensures LinesWith(f, lines[i..], i, pos)
            == f(lines[i], pos)
               + (if i < |lines| - 1 then [Br(Key(pos + |f(lines[i], pos)|, i))] else [])
               + LinesWith(f, lines[i + 1..], i + 1, pos + |f(lines[i], pos)| + (if i < |lines| - 1 then 1 else 0))
  {
    assert lines[i..][1..] == lines[i + 1..];
  }

  lemma ItemsTokensStep(items: seq<Node>, i: nat, pos: nat)
    requires i < |items|
    ensures ItemsTokens(items[i..], pos)
            == WalkTokens(items[i], pos) + ItemsTokens(items[i + 1..], pos + |WalkTokens(items[i], pos)|)
  {
    assert items[i..][1..] == items[i + 1..];
  }

  /** The tokenizer's output list, which `pushText` and `walk` append to. */
  class Tokenizer {
    var out: seq<Token>

    constructor ()
      ensures out == []
    {
      out := [];
    }

    /** `pushText(t)`: split `t` into words and white-space runs and append
        a token for each non-empty piece, a break for an escaped break. */
    method PushText(t: string)
      modifies this
      ensures out == old(out) + TextTokens(t, |old(out)|)
    {
      var parts := SplitWs(t);
      var i := 0;
      assert parts[0..] == parts;
      while i < |parts|
        invariant 0 <= i <= |parts|
        invariant out + PartsTokens(parts[i..], i, |out|) == old(out) + PartsTokens(parts, 0, |old(out)|)
      {
        var p := parts[i];
        ghost var before := out;
        ghost var tok := PartToken(p, i, |out|);
        PartsTokensStep(parts, i, |out|);
        if p == EscapedBreak {
          out := out + [Br(Key(|out|, i))];
        } else if |p| > 0 {
          out := out + [Text(Key(|out|, i), p)];
        }
        assert out == before + tok;
        AppendAssoc(before, tok, PartsTokens(parts[i + 1..], i + 1, |out|));
        i := i + 1;
      }
    }

    /** The lines of a string, each line's text followed by a break unless
        it is the last line. */
    method PushLines(lines: seq<string>)
      modifies this
      ensures out == old(out) + LinesTokens(lines, 0, |old(out)|)
    {
      var li := 0;
      assert lines[0..] == lines;
      while li < |lines|
        invariant 0 <= li <= |lines|
        invariant out + LinesTokens(lines[li..], li, |out|) == old(out) + LinesTokens(lines, 0, |old(out)|)
      {
        ghost var before := out;
        LinesWithStep(TextTokens, lines, li, |out|);
        PushText(lines[li]);
        ghost var t := out[|before|..];
        assert out == before + t;
        if li < |lines| - 1 {
          out := out + [Br(Key(|out|, li))];
        }
        ghost var b: seq<Token> := if li < |lines| - 1 then [Br(Key(|before| + |t|, li))] else [];
        assert out == (before + t) + b;
        AppendAssoc(before, t, b);
        AppendAssoc(before, t + b, LinesTokens(lines[li + 1..], li + 1, |out|));
        li := li + 1;
      }
    }

    /** `walk(n)`: append the tokens of `n`. */
    method Walk(n: Node)
      modifies this
      ensures out == old(out) + WalkTokens(n, |old(out)|)
      decreases n
    {
      match n
      case Nothing =>
      case Str(s) =>
        PushLines(SplitLines(Normalize(s)));
      case Num(repr) =>
        PushText(repr);
      case Arr(items) =>
        var k := 0;
        assert items[0..] == items;
        while k < |items|
          invariant 0 <= k <= |items|
          invariant out + ItemsTokens(items[k..], |out|) == old(out) + ItemsTokens(items, |old(out)|)
        {
          ghost var before := out;
          ItemsTokensStep(items, k, |out|);
          Walk(items[k]);
          AppendAssoc(before, WalkTokens(items[k], |before|), ItemsTokens(items[k + 1..], |out|));
          k := k + 1;
        }
      case Elem(children) =>
        Walk(children);
      case Other =>
    }
  }

  /** `tokenize(node)`: the tokens of `node`. Their keys are pairwise
      distinct, and every text token is a non-empty run that is all white
      space or has none. */
  method Tokenize(node: Node) returns (tokens: seq<Token>)
    ensures tokens == WalkTokens(node, 0)
    ensures forall a, b :: 0 <= a < b < |tokens| ==> tokens[a].key != tokens[b].key
    ensures forall k :: 0 <= k < |tokens| && tokens[k].Text? ==>
              tokens[k].text != "" && (IsSpaceText(tokens[k].text) || HasNoSpace(tokens[k].text))
  {
    var tokenizer := new Tokenizer();
    tokenizer.Walk(node);
    tokens := tokenizer.out;
    WalkTokensShape(node, 0);
  }
}
