/** The tokenizer of policy lines: it works in place, with one pointer reading and one writing behind it. */
module PolicyText {
  import opened Options

  const NUL := '\0'

  predicate Blank(c: char) {
    c == ' ' || c == '\t' || c == '\r' || c == '\n'
  }

  // ----- What a line means -----

  datatype Read = Bad | Got(word: string, rest: string)

  function Before(w: string, r: Read): Read {
    if r.Bad? then Bad else Got(w + r.word, r.rest)
  }

  /** After an opening quote: up to the closing one, which a backslash keeps in the word. */
  function Quoted(s: string): (r: Read)
    ensures r.Got? ==> |r.rest| < |s|
  {
    if s == [] then Bad
    else if s[0] == '"' then Got([], s[1..])
    else if s[0] == '\\' && |s| > 1 && s[1] == '"' then Before(['"'], Quoted(s[2..]))
    else Before([s[0]], Quoted(s[1..]))
  }

  /** A word: up to a blank outside quotes, the quotes removed. */
  function Word(s: string): (r: Read)
    ensures r.Got? ==> |r.rest| <= |s| && (r.rest == [] || Blank(r.rest[0]))
    ensures r.Got? && s != [] && !Blank(s[0]) ==> |r.rest| < |s|
    decreases |s|
  {
    if s == [] || Blank(s[0]) then Got([], s)
    else if s[0] == '"' then
      var q := Quoted(s[1..]);
      if q.Bad? then Bad else Before(q.word, Word(q.rest))
    else Before([s[0]], Word(s[1..]))
  }

  function Skip(s: string): (t: string)
    ensures |t| <= |s| && (t == [] || !Blank(t[0]))
  {
    if s != [] && Blank(s[0]) then Skip(s[1..]) else s
  }

  /** The words of a line, up to a comment; nothing when a quote is not closed. */
  function Words(s: string): Option<seq<string>>
    decreases |s|
  {
    var t := Skip(s);
    if t == [] || t[0] == '#' then Some([])
    else
      var w := Word(t);
      if w.Bad? then None
      else
        var more := Words(if w.rest == [] then [] else w.rest[1..]);
        if more.None? then None else Some([w.word] + more.value)
  }

  // ----- Quoting undoes it -----

  function Escape(w: string): string {
    if w == [] then [] else (if w[0] == '"' then ['\\', '"'] else [w[0]]) + Escape(w[1..])
  }

  function Quote(w: string): string { ['"'] + Escape(w) + ['"'] }

  function Line(ws: seq<string>): string {
    if ws == [] then [] else Quote(ws[0]) + [' '] + Line(ws[1..])
  }

  /** A backslash at the end would swallow the closing quote. */
  predicate Quotable(w: string) {
    w == [] || w[|w| - 1] != '\\'
  }

  lemma EscapeFirst(w: string, rest: string)
    requires w != []
    ensures Escape(w) + rest == (if w[0] == '"' then ['\\', '"'] else [w[0]]) + (Escape(w[1..]) + rest)
    ensures Escape(w) != [] && Escape(w)[0] != '"'
  {
  }

  lemma {:induction false} QuotedEscape(w: string, rest: string)
    requires Quotable(w)
    ensures Quoted(Escape(w) + (['"'] + rest)) == Got(w, rest)
  {
    var close := ['"'] + rest;
    if w == [] {
      assert Escape(w) + close == close;
    } else {
      hide Quoted, Escape;
      EscapeFirst(w, close);
      QuotedEscape(w[1..], rest);
      var t := Escape(w[1..]) + close;
      assert w == [w[0]] + w[1..];
      if w[0] == '"' {
        QuotedQuote(t);
      } else {
        if w[0] == '\\' {
          EscapeFirst(w[1..], close);
        }
        QuotedOther(w[0], t);
      }
    }
  }

  lemma QuotedQuote(t: string)
    ensures Quoted(['\\', '"'] + t) == Before(['"'], Quoted(t))
  {
    assert (['\\', '"'] + t)[2..] == t;
  }

  lemma QuotedOther(c: char, t: string)
    requires c != '"' && (c == '\\' ==> t == [] || t[0] != '"')
    ensures Quoted([c] + t) == Before([c], Quoted(t))
  {
    assert ([c] + t)[1..] == t;
  }

  /** Every list of words that can be quoted comes back. */
  lemma {:induction false} LineRoundTrip(ws: seq<string>)
    requires forall i :: 0 <= i < |ws| ==> Quotable(ws[i])
    ensures Words(Line(ws)) == Some(ws)
  {
    if ws != [] {
      hide Word, Quote;
      var tail := [' '] + Line(ws[1..]);
      assert Line(ws) == Quote(ws[0]) + tail;
      QuotedWord(ws[0], tail);
      assert tail[1..] == Line(ws[1..]);
      LineRoundTrip(ws[1..]);
      assert [ws[0]] + ws[1..] == ws;
    }
  }

  lemma QuotedWord(w: string, tail: string)
    requires Quotable(w) && tail != [] && Blank(tail[0])
    ensures var s := Quote(w) + tail; s[0] == '"' && Word(s) == Got(w, tail)
  {
    var s := Quote(w) + tail;
    assert s[1..] == Escape(w) + (['"'] + tail);
    QuotedEscape(w, tail);
    hide Quoted, Escape;
    assert Word(tail) == Got([], tail);
    assert w + [] == w;
  }

  // ----- The tokenizer -----

  /** The string that starts at i. */
  function CStr(b: seq<char>, i: nat): string
    decreases |b| - i
  {
    if i >= |b| || b[i] == NUL then [] else [b[i]] + CStr(b, i + 1)
  }

  /** The word w, terminated, at i. */
  ghost predicate Spelled(b: seq<char>, i: nat, w: string) {
    i + |w| < |b| && b[i..i + |w|] == w && b[i + |w|] == NUL && NUL !in w
  }

  lemma {:induction false} SpelledIs(b: seq<char>, i: nat, w: string)
    requires Spelled(b, i, w)
    ensures CStr(b, i) == w
    decreases |w|
  {
    if w != [] {
      assert b[i] == b[i..i + |w|][0];
      assert b[i + 1..i + 1 + |w[1..]|] == w[1..];
      SpelledIs(b, i + 1, w[1..]);
    }
  }

  /** The unread part of the line is untouched. */
  ghost predicate Unread(b: seq<char>, s: string, p: nat) {
    |b| == |s| + 1 && p <= |s| && b[p..] == s[p..] + [NUL]
  }

  lemma UnreadAt(b: seq<char>, s: string, p: nat)
    requires Unread(b, s, p)
    ensures p < |s| ==> b[p] == s[p] && s[p..] == [s[p]] + s[p + 1..] && Unread(b, s, p + 1)
    ensures p == |s| ==> b[p] == NUL && s[p..] == []
  {
    assert b[p] == b[p..][0];
    if p < |s| {
      assert b[p + 1..] == b[p..][1..];
    }
  }

  lemma UnreadChar(b: seq<char>, s: string, p: nat)
    requires Unread(b, s, p)
    ensures |b| == |s| + 1 && p <= |s| && b[p] == (if p < |s| then s[p] else NUL) && (p < |s| ==> Unread(b, s, p + 1))
  {
    UnreadAt(b, s, p);
  }

  lemma StaysUnread(b: seq<char>, b': seq<char>, s: string, p: nat)
    requires Unread(b, s, p) && |b'| == |b| && b'[p..] == b[p..]
    ensures Unread(b', s, p)
  {
  }

  /** Moves one character from the reader to the writer, which stays behind it. */
  method CopyChar(a: array<char>, ghost s: string, p: nat, out: nat, ghost start: nat)
    requires Unread(a[..], s, p) && p < |s| && start <= out <= p
    modifies a
    ensures Unread(a[..], s, p + 1) && a[start..out + 1] == old(a[start..out]) + [s[p]]
    ensures forall i :: 0 <= i < out ==> a[i] == old(a[i])
  {
    UnreadAt(a[..], s, p);
    ghost var b := a[..];
    a[out] := a[p];
    StaysUnread(b, a[..], s, p + 1);
  }

  lemma BeforeBefore(x: string, y: string, r: Read)
    ensures Before(x, Before(y, r)) == Before(x + y, r)
  {
    if r.Got? {
      assert x + (y + r.word) == (x + y) + r.word;
    }
  }

  lemma BeforeNothing(r: Read)
    ensures Before([], r) == r
  {
    if r.Got? {
      assert [] + r.word == r.word;
    }
  }

  /** One character inside quotes, or an escaped quote. */
  method QuotedChar(a: array<char>, ghost s: string, p0: nat, out: nat, ghost start: nat) returns (p: nat)
    requires Unread(a[..], s, p0) && start <= out < p0 < |s| && s[p0] != '"'
    modifies a
    ensures p0 < p <= |s| && a.Length == |s| + 1 && Unread(a[..], s, p)
    ensures Before(old(a[start..out]), Quoted(s[p0..])) == Before(a[start..out + 1], Quoted(s[p..]))
    ensures forall i :: 0 <= i < start ==> a[i] == old(a[i])
  {
    UnreadChar(a[..], s, p0);
    UnreadChar(a[..], s, p0 + 1);
    QuotedNext(s, p0);
    hide Quoted, Before, Unread;
    p := p0;
    if a[p] == '\\' && a[p + 1] == '"' {
      p := p + 1;
    }
    BeforeBefore(a[start..out], [s[p]], Quoted(s[p + 1..]));
    CopyChar(a, s, p, out, start);
    p := p + 1;
  }

  /** Copies the inside of a quoted part to `out`; p is after the opening quote. */
  method ReadQuoted(a: array<char>, ghost s: string, p0: nat, out0: nat, ghost start: nat) returns (ok: bool, p: nat, out: nat)
    requires Unread(a[..], s, p0) && start <= out0 < p0 && NUL !in s
    modifies a
    ensures ok <==> Quoted(s[p0..]).Got?
    ensures ok ==> p0 <= p <= |s| && out0 <= out < p && Unread(a[..], s, p)
    ensures ok ==> Before(old(a[start..out0]), Quoted(s[p0..])) == Got(a[start..out], s[p..])
    ensures forall i :: 0 <= i < start ==> a[i] == old(a[i])
  {
    ghost var head, all := a[start..out0], Quoted(s[p0..]);
    p, out := p0, out0;
    UnreadChar(a[..], s, p);
    hide Quoted, Unread, Before;
    while a[p] != NUL && a[p] != '"'
      invariant p <= |s| && |s| + 1 == a.Length && Unread(a[..], s, p) && out0 <= out < p && p0 <= p
      invariant a[p] == if p < |s| then s[p] else NUL
      invariant Before(head, all) == Before(a[start..out], Quoted(s[p..]))
      invariant forall i :: 0 <= i < start ==> a[i] == old(a[i])
      decreases |s| - p
    {
      p := QuotedChar(a, s, p, out, start);
      out := out + 1;
      UnreadChar(a[..], s, p);
    }
    ok := a[p] == '"';
    QuotedDone(head, all, a[start..out], s, p);
    if ok {
      UnreadChar(a[..], s, p);
      p := p + 1;
    }
  }

  lemma QuotedDone(head: string, all: Read, w: string, s: string, p: nat)
    requires p <= |s| && (p < |s| ==> s[p] == '"') && Before(head, all) == Before(w, Quoted(s[p..]))
    ensures p == |s| ==> all.Bad?
    ensures p < |s| ==> all.Got? && Before(head, all) == Got(w, s[p + 1..])
  {
    QuotedEnds(s, p);
    if p < |s| {
      BeforeGot(w, s[p + 1..]);
    }
  }

  lemma QuotedEnds(s: string, p: nat)
    requires p <= |s|
    ensures p == |s| ==> Quoted(s[p..]).Bad?
    ensures p < |s| && s[p] == '"' ==> Quoted(s[p..]) == Got([], s[p + 1..])
  {
  }

  lemma BadBefore(w: string, r: Read)
    ensures Before(w, r).Bad? <==> r.Bad?
  {
  }

  lemma BeforeGot(w: string, rest: string)
    ensures Before(w, Got([], rest)) == Got(w, rest)
  {
    assert w + [] == w;
  }

  lemma QuotedNext(s: string, p: nat)
    requires p < |s| && s[p] != '"'
    ensures Quoted(s[p..]) ==
            if s[p] == '\\' && p + 1 < |s| && s[p + 1] == '"' then Before(['"'], Quoted(s[p + 2..]))
            else Before([s[p]], Quoted(s[p + 1..]))
  {
    assert s[p..][1..] == s[p + 1..];
    if p + 1 < |s| {
      assert s[p..][2..] == s[p + 2..];
    }
  }

  /** One character of a word, or one quoted part. */
  method WordStep(a: array<char>, ghost s: string, p0: nat, out0: nat, ghost start: nat) returns (ok: bool, p: nat, out: nat)
    requires Unread(a[..], s, p0) && start <= out0 <= p0 < |s| && !Blank(s[p0]) && NUL !in s
    modifies a
    ensures !ok ==> Word(s[p0..]).Bad?
    ensures ok ==> p0 < p <= |s| && out0 <= out <= p && a.Length == |s| + 1 && Unread(a[..], s, p)
    ensures ok ==> Before(old(a[start..out0]), Word(s[p0..])) == Before(a[start..out], Word(s[p..]))
    ensures forall i :: 0 <= i < start ==> a[i] == old(a[i])
  {
    UnreadAt(a[..], s, p0);
    WordNext(s, p0);
    hide Word, Quoted, Unread, Before;
    ghost var w := a[start..out0];
    if a[p0] == '"' {
      ghost var q := Quoted(s[p0 + 1..]);
      ok, p, out := ReadQuoted(a, s, p0 + 1, out0, start);
      if ok {
        Rejoin(w, q, a[start..out], s[p..]);
      }
    } else {
      BeforeBefore(w, [s[p0]], Word(s[p0 + 1..]));
      CopyChar(a, s, p0, out0, start);
      ok, p, out := true, p0 + 1, out0 + 1;
    }
  }

  /** Reads one word in place, its characters moved together from `start` on. */
  method ReadWord(a: array<char>, ghost s: string, start: nat) returns (ok: bool, p: nat, out: nat)
    requires Unread(a[..], s, start) && NUL !in s
    modifies a
    ensures ok <==> Word(s[start..]).Got?
    ensures ok ==> start <= out <= p <= |s| && Unread(a[..], s, p)
    ensures ok ==> Word(s[start..]) == Got(a[start..out], s[p..])
    ensures forall i :: 0 <= i < start ==> a[i] == old(a[i])
  {
    ghost var all := Word(s[start..]);
    p, out := start, start;
    UnreadAt(a[..], s, p);
    BeforeNothing(all);
    assert a[start..out] == [];
    hide Word, Quoted, Unread, Before;
    while a[p] != NUL && !Blank(a[p])
      invariant p <= |s| && |s| + 1 == a.Length && Unread(a[..], s, p) && start <= out <= p
      invariant a[p] == if p < |s| then s[p] else NUL
      invariant all == Before(a[start..out], Word(s[p..]))
      invariant forall i :: 0 <= i < start ==> a[i] == old(a[i])
      decreases |s| - p
    {
      BadBefore(a[start..out], Word(s[p..]));
      ok, p, out := WordStep(a, s, p, out, start);
      if !ok {
        return;
      }
      UnreadAt(a[..], s, p);
    }
    WordEnds(s, p);
    BeforeGot(a[start..out], s[p..]);
    ok := true;
  }

  lemma WordNext(s: string, p: nat)
    requires p < |s| && !Blank(s[p])
    ensures var q := Quoted(s[p + 1..]);
            Word(s[p..]) == if s[p] != '"' then Before([s[p]], Word(s[p + 1..])) else if q.Bad? then Bad else Before(q.word, Word(q.rest))
  {
    assert s[p..][1..] == s[p + 1..];
  }

  lemma WordEnds(s: string, p: nat)
    requires p <= |s| && (p == |s| || Blank(s[p]))
    ensures Word(s[p..]) == Got([], s[p..])
  {
  }

  /** A quoted part joins what was read before it. */
  lemma Rejoin(w: string, q: Read, all: string, rest: string)
    requires q.Got? && Before(w, q) == Got(all, rest)
    ensures q.rest == rest && Before(w, Before(q.word, Word(rest))) == Before(all, Word(rest))
  {
    hide Word;
    BeforeBefore(w, q.word, Word(rest));
  }

  /** Words already cut out, all before p unless the line is used up. */
  ghost predicate Cut(b: seq<char>, tok: seq<nat>, ws: seq<string>, p: nat) {
    |tok| == |ws| &&
    forall i :: 0 <= i < |tok| ==> Spelled(b, tok[i], ws[i]) && (tok[i] + |ws[i]| < p || p + 1 == |b|)
  }

  function After(ws: seq<string>, more: Option<seq<string>>): Option<seq<string>> {
    if more.None? then None else Some(ws + more.value)
  }

  method SkipBlanks(a: array<char>, ghost s: string, p0: nat) returns (p: nat)
    requires Unread(a[..], s, p0)
    ensures p0 <= p <= |s| && Unread(a[..], s, p) && Skip(s[p0..]) == s[p..]
    ensures p < |s| ==> a[p] == s[p] && !Blank(s[p])
    ensures p == |s| ==> a[p] == NUL
  {
    p := p0;
    UnreadAt(a[..], s, p);
    while Blank(a[p])
      invariant p0 <= p <= |s| && Unread(a[..], s, p) && Skip(s[p0..]) == Skip(s[p..])
      decreases |s| - p
    {
      UnreadAt(a[..], s, p);
      assert s[p..][1..] == s[p + 1..];
      p := p + 1;
    }
    UnreadAt(a[..], s, p);
  }

  /** Cuts one word out of the line and moves past the blank that ended it. */
  method CutWord(a: array<char>, ghost s: string, start: nat) returns (ok: bool, p: nat, ghost w: string)
    requires Unread(a[..], s, start) && NUL !in s && start < |s|
    modifies a
    ensures ok <==> Word(s[start..]).Got?
    ensures ok ==> start <= p <= |s| && Unread(a[..], s, p) && Spelled(a[..], start, w) && (start + |w| < p || p == |s|)
    ensures ok ==> var r := Word(s[start..]); r.word == w && (if r.rest == [] then [] else r.rest[1..]) == s[p..]
    ensures ok ==> start < p
    ensures forall i :: 0 <= i < start ==> a[i] == old(a[i])
  {
    hide Word;
    var out;
    ok, p, out := ReadWord(a, s, start);
    w := [];
    if !ok {
      return;
    }
    w := a[start..out];
    UnreadAt(a[..], s, p);
    WordClean(s[start..]);
    if a[p] != NUL {
      p := p + 1;
    }
    ghost var b := a[..];
    a[out] := NUL;
    assert a[start..start + |w|] == w;
    EndsUnread(b, a[..], s, p, out);
  }

  lemma EndsUnread(b: seq<char>, b': seq<char>, s: string, p: nat, out: nat)
    requires Unread(b, s, p) && (out < p || p == |s|) && out <= p && b' == b[out := NUL]
    ensures Unread(b', s, p)
  {
  }

  lemma {:induction false} QuotedClean(s: string)
    requires NUL !in s
    ensures Quoted(s).Got? ==> NUL !in Quoted(s).word && NUL !in Quoted(s).rest
  {
    if s != [] && s[0] != '"' {
      if s[0] == '\\' && |s| > 1 && s[1] == '"' {
        QuotedClean(s[2..]);
      } else {
        QuotedClean(s[1..]);
      }
    }
  }

  lemma {:induction false} WordClean(s: string)
    requires NUL !in s
    ensures Word(s).Got? ==> NUL !in Word(s).word
    decreases |s|
  {
    if s != [] && !Blank(s[0]) {
      if s[0] == '"' {
        QuotedClean(s[1..]);
        if Quoted(s[1..]).Got? {
          WordClean(Quoted(s[1..]).rest);
        }
      } else {
        WordClean(s[1..]);
      }
    }
  }

  /**
   Splits the line in place.  Afterwards the words stand, terminated, in the line's own buffer; n is negative for
   a quote that is not closed and for too many words.
   */
  method Tokenize(a: array<char>, max: nat, ghost s: string) returns (n: int, tok: seq<nat>)
    requires Unread(a[..], s, 0) && NUL !in s
    modifies a
    ensures n < 0 <==> Words(s).None? || |Words(s).value| > max
    ensures n >= 0 ==> n == |tok| == |Words(s).value|
    ensures n >= 0 ==> forall i :: 0 <= i < n ==> tok[i] < a.Length && CStr(a[..], tok[i]) == Words(s).value[i]
  {
    tok := [];
    ghost var ws: seq<string> := [];
    var p := 0;
    AfterNone(Words(s));
    assert s[0..] == s;
    UnreadAt(a[..], s, p);
    hide Words, Word, Skip, Unread, Cut, CStr;
    CutNone(a[..]);
    while a[p] != NUL
      invariant p <= |s| && a.Length == |s| + 1 && Unread(a[..], s, p) && Cut(a[..], tok, ws, p)
      invariant |tok| == |ws| <= max && Words(s) == After(ws, Words(s[p..]))
      invariant a[p] == if p < |s| then s[p] else NUL
      decreases |s| - p
    {
      ghost var w;
      var start, result;
      result, start, p, w := NextWord(a, s, p, tok, ws, |tok| < max);
      if result.End? {
        return |tok|, tok;
      } else if result.Failed? {
        return -1, tok;
      }
      AfterAfter(ws, w, Words(s[p..]));
      tok, ws := tok + [start], ws + [w];
      UnreadAt(a[..], s, p);
    }
    SkipEnd(s, p);
    WordsFrom(s, p, p);
    AllCut(a[..], tok, ws, p);
    n := |tok|;
  }

  lemma SkipEnd(s: string, p: nat)
    requires p == |s|
    ensures Skip(s[p..]) == s[p..]
  {
  }

  datatype Progress = End | Failed | Another

  /** Skips blanks and, unless the line ends or there is no room, cuts the next word out. */
  method NextWord(a: array<char>, ghost s: string, p0: nat, ghost tok: seq<nat>, ghost ws: seq<string>, room: bool)
    returns (result: Progress, start: nat, p: nat, ghost w: string)
    requires Unread(a[..], s, p0) && NUL !in s && Cut(a[..], tok, ws, p0)
    modifies a
    ensures result.End? ==> Words(s[p0..]) == Some([]) && After(ws, Some([])) == Some(ws)
    ensures result.End? ==> forall i :: 0 <= i < |tok| ==> tok[i] < a.Length && CStr(a[..], tok[i]) == ws[i]
    ensures result.Failed? ==> Words(s[p0..]).None? || (!room && Words(s[p0..]).value != [])
    ensures result.Another? ==> room && p0 < p <= |s| && a.Length == |s| + 1 && Unread(a[..], s, p)
    ensures result.Another? ==> Words(s[p0..]) == After([w], Words(s[p..])) && Cut(a[..], tok + [start], ws + [w], p)
  {
    hide Words, Word, Skip, Cut, CStr;
    w := [];
    p := SkipBlanks(a, s, p0);
    start := p;
    CutLater(a[..], tok, ws, p0, p);
    WordsFrom(s, p0, p);
    if a[p] == NUL || a[p] == '#' {
      AllCut(a[..], tok, ws, p);
      return End, start, p, w;
    }
    if !room {
      return Failed, start, p, w;
    }
    ghost var b := a[..];
    var ok;
    ok, p, w := CutWord(a, s, p);
    if !ok {
      return Failed, start, p, w;
    }
    CutNext(b, a[..], tok, ws, start, w, p);
    result := Another;
  }

  lemma AfterNone(more: Option<seq<string>>)
    ensures After([], more) == more
  {
    if more.Some? {
      assert [] + more.value == more.value;
    }
  }

  lemma AfterAfter(ws: seq<string>, w: string, more: Option<seq<string>>)
    ensures After(ws, After([w], more)) == After(ws + [w], more)
  {
    if more.Some? {
      assert ws + ([w] + more.value) == (ws + [w]) + more.value;
    }
  }

  lemma WordsFrom(s: string, here: nat, p: nat)
    requires here <= p <= |s| && Skip(s[here..]) == s[p..] && (p < |s| ==> !Blank(s[p]))
    ensures p == |s| || s[p] == '#' ==> Words(s[here..]) == Some([])
    ensures p < |s| && s[p] != '#' ==>
              var r := Word(s[p..]);
              Words(s[here..]) == if r.Bad? then None else After([r.word], Words(if r.rest == [] then [] else r.rest[1..]))
  {
    hide Word, Skip;
  }

  lemma CutNone(b: seq<char>)
    ensures Cut(b, [], [], 0)
  {
  }

  lemma CutLater(b: seq<char>, tok: seq<nat>, ws: seq<string>, here: nat, p: nat)
    requires Cut(b, tok, ws, here) && here <= p < |b|
    ensures Cut(b, tok, ws, p)
  {
  }

  lemma CutNext(b: seq<char>, b': seq<char>, tok: seq<nat>, ws: seq<string>, start: nat, w: string, p: nat)
    requires Cut(b, tok, ws, start) && |b'| == |b| && start + 1 < |b| && start <= p && (start + |w| < p || p + 1 == |b|)
    requires Spelled(b', start, w) && forall i :: 0 <= i < start ==> b'[i] == b[i]
    ensures Cut(b', tok + [start], ws + [w], p)
  {
    forall i | 0 <= i < |tok|
      ensures Spelled(b', tok[i], ws[i])
    {
      assert Spelled(b, tok[i], ws[i]);
      assert b'[tok[i]..tok[i] + |ws[i]|] == b[tok[i]..tok[i] + |ws[i]|];
    }
  }

  lemma AllCut(b: seq<char>, tok: seq<nat>, ws: seq<string>, p: nat)
    requires Cut(b, tok, ws, p)
    ensures forall i :: 0 <= i < |tok| ==> tok[i] < |b| && CStr(b, tok[i]) == ws[i]
    ensures After(ws, Some([])) == Some(ws)
  {
    forall i | 0 <= i < |tok|
      ensures tok[i] < |b| && CStr(b, tok[i]) == ws[i]
    {
      SpelledIs(b, tok[i], ws[i]);
    }
    assert ws + [] == ws;
  }
}
