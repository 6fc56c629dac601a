/** How the merge programs turn their input into an array: `strtok` keeps its place in
    a hidden variable and writes a NUL behind each token, one pass over a copy counts
    the tokens, a second pass over the original converts them. */
module TokenParsing {
  import opened StableSorting

  const NUL: char := '\0'
  const LINE_BUFFER := 200        // BUFF of merge_threads.c
  const ARGUMENT_BUFFER := 20000  // BUFF of merge.c

  // ---------- the tokens of a string ----------

  /** A stretch `s[start..end]` of a string. */
  datatype Piece = Piece(start: nat, end: nat)

  /** A longest possible stretch of characters other than `d`, and not an empty one. */
  ghost predicate IsPiece(s: string, d: char, p: Piece) {
    && p.start < p.end <= |s|
    && (forall k :: p.start <= k < p.end ==> s[k] != d)
    && (p.start > 0 ==> s[p.start - 1] == d)
    && (p.end < |s| ==> s[p.end] == d)
  }

  function Skip(s: string, i: nat, d: char): (j: nat)
    requires i <= |s|
    ensures i <= j <= |s| && (forall k :: i <= k < j ==> s[k] == d) && (j < |s| ==> s[j] != d)
    decreases |s| - i
  {
    if i < |s| && s[i] == d then Skip(s, i + 1, d) else i
  }

  function Span(s: string, i: nat, d: char): (j: nat)
    requires i <= |s|
    ensures i <= j <= |s| && (forall k :: i <= k < j ==> s[k] != d) && (j < |s| ==> s[j] == d)
    decreases |s| - i
  {
    if i < |s| && s[i] != d then Span(s, i + 1, d) else i
  }

  /** Where the next call of `strtok` goes on after a token that ends at `end`. */
  function After(s: string, end: nat): nat {
    if end < |s| then end + 1 else |s|
  }

  function Pieces(s: string, i: nat, d: char): seq<Piece>
    requires i <= |s|
    decreases |s| - i
  {
    var b := Skip(s, i, d);
    if b == |s| then []
    else
      var e := Span(s, b, d);
      [Piece(b, e)] + Pieces(s, After(s, e), d)
  }

  function Text(s: string, p: Piece): string {
    if p.start <= p.end <= |s| then s[p.start..p.end] else []
  }

  /** The text of each token in turn. */
  function Tokens(s: string, d: char): (tokens: seq<string>)
    ensures |tokens| == |Pieces(s, 0, d)|
  {
    seq(|Pieces(s, 0, d)|, i requires 0 <= i < |Pieces(s, 0, d)| => Text(s, Pieces(s, 0, d)[i]))
  }

  /** From a place where a token may begin, the tokens are in order and each is a piece. */
  lemma {:induction false} PiecesInOrder(s: string, i: nat, d: char)
    requires i <= |s| && (i > 0 ==> i == |s| || s[i - 1] == d)
    ensures forall k :: 0 <= k < |Pieces(s, i, d)| ==>
      IsPiece(s, d, Pieces(s, i, d)[k]) && i <= Pieces(s, i, d)[k].start
    ensures forall j, k :: 0 <= j < k < |Pieces(s, i, d)| ==> Pieces(s, i, d)[j].end < Pieces(s, i, d)[k].start
    decreases |s| - i
  {
    var b := Skip(s, i, d);
    if b < |s| {
      var e := Span(s, b, d);
      PiecesInOrder(s, After(s, e), d);
      assert Pieces(s, i, d) == [Piece(b, e)] + Pieces(s, After(s, e), d);
      if e == |s| {
        assert Pieces(s, After(s, e), d) == [];
      }
    }
  }

  /** And no piece is left out. */
  lemma {:induction false} EveryPieceFound(s: string, i: nat, d: char, p: Piece)
    requires i <= |s| && IsPiece(s, d, p) && i <= p.start
    ensures p in Pieces(s, i, d)
    decreases |s| - i
  {
    var b := Skip(s, i, d);
    assert b <= p.start by {
      assert s[p.start] != d;
    }
    var e := Span(s, b, d);
    if p.start >= e {
      assert s[p.start] != d;
      EveryPieceFound(s, After(s, e), d, p);
    }
  }

  /** What `strtok` takes apart a string into, without reference to how: exactly its
      longest non-empty stretches without a delimiter, from left to right. */
  lemma TokensAreThePieces(s: string, d: char, p: Piece)
    ensures p in Pieces(s, 0, d) <==> IsPiece(s, d, p)
    ensures forall j, k :: 0 <= j < k < |Pieces(s, 0, d)| ==> Pieces(s, 0, d)[j].end < Pieces(s, 0, d)[k].start
  {
    PiecesInOrder(s, 0, d);
    if IsPiece(s, d, p) {
      EveryPieceFound(s, 0, d, p);
    }
  }

  /** A token starts at `b`. */
  predicate Starts(s: string, d: char, b: nat) {
    b < |s| && s[b] != d && (b == 0 || s[b - 1] == d)
  }

  ghost function StartsBefore(s: string, d: char, n: nat): set<nat> {
    set b: nat | b < n && Starts(s, d, b)
  }

  /** Wherever a token may start, one of the pieces does. */
  lemma StartsAPiece(s: string, d: char, b: nat) returns (j: nat)
    requires Starts(s, d, b)
    ensures j < |Pieces(s, 0, d)| && Pieces(s, 0, d)[j].start == b
  {
    var p := Piece(b, Span(s, b, d));
    assert IsPiece(s, d, p);
    EveryPieceFound(s, 0, d, p);
    j :| j < |Pieces(s, 0, d)| && Pieces(s, 0, d)[j] == p;
  }

  lemma PieceOrder(s: string, d: char, j: nat, k: nat)
    requires j <= k < |Pieces(s, 0, d)|
    ensures IsPiece(s, d, Pieces(s, 0, d)[j]) && IsPiece(s, d, Pieces(s, 0, d)[k])
    ensures j < k ==> Pieces(s, 0, d)[j].start < Pieces(s, 0, d)[k].start
  {
    PiecesInOrder(s, 0, d);
  }

  /** Where the `n`-th piece starts, or the end of the string if there are just `n`. */
  function StartOf(s: string, d: char, n: nat): nat
    requires n <= |Pieces(s, 0, d)|
  {
    if n < |Pieces(s, 0, d)| then Pieces(s, 0, d)[n].start else |s|
  }

  /** From one piece to the next just one token starts. */
  lemma OneStart(s: string, d: char, n: nat, b: nat)
    requires n < |Pieces(s, 0, d)|
    ensures b < StartOf(s, d, n + 1) && Starts(s, d, b) <==>
      (b < StartOf(s, d, n) && Starts(s, d, b)) || b == StartOf(s, d, n)
  {
    PieceOrder(s, d, n, n);
    if n + 1 < |Pieces(s, 0, d)| {
      PieceOrder(s, d, n, n + 1);
    }
    if b < StartOf(s, d, n + 1) && Starts(s, d, b) {
      var j := StartsAPiece(s, d, b);
      if j < n {
        PieceOrder(s, d, j, n);
      } else if j > n {
        PieceOrder(s, d, n + 1, j);
      }
    }
  }

  /** Before the `n`-th piece exactly `n` tokens have started. */
  lemma {:induction false} StartsCounted(s: string, d: char, n: nat)
    requires n <= |Pieces(s, 0, d)|
    ensures |StartsBefore(s, d, StartOf(s, d, n))| == n
    decreases n
  {
    if n == 0 {
      NoStart(s, d);
    } else {
      StartsCounted(s, d, n - 1);
      var before, here := StartsBefore(s, d, StartOf(s, d, n - 1)), StartOf(s, d, n - 1);
      forall b: nat
        ensures b in StartsBefore(s, d, StartOf(s, d, n)) <==> b in before + {here}
      {
        OneStart(s, d, n - 1, b);
      }
      assert StartsBefore(s, d, StartOf(s, d, n)) == before + {here};
    }
  }

  lemma NoStart(s: string, d: char)
    ensures StartsBefore(s, d, StartOf(s, d, 0)) == {}
  {
    forall b: nat | b < StartOf(s, d, 0)
      ensures !Starts(s, d, b)
    {
      if Starts(s, d, b) {
        var j := StartsAPiece(s, d, b);
        PieceOrder(s, d, 0, j);
      }
    }
  }

  // ---------- C strings ----------

  /** The C string at the front of a buffer is `s`. */
  ghost predicate Holds(a: seq<char>, s: string) {
    |s| < |a| && a[|s|] == NUL && NUL !in s && a[..|s|] == s
  }

  /** The characters from `i` up to the next NUL. */
  function CString(a: seq<char>, i: nat): string
    requires i <= |a|
    decreases |a| - i
  {
    if i == |a| || a[i] == NUL then [] else [a[i]] + CString(a, i + 1)
  }

  lemma {:induction false} CStringIs(a: seq<char>, i: nat, e: nat)
    requires i <= e < |a| && a[e] == NUL && forall k :: i <= k < e ==> a[k] != NUL
    ensures CString(a, i) == a[i..e]
    decreases e - i
  {
    if i < e {
      CStringIs(a, i + 1, e);
    }
  }

  // ---------- strtok ----------

  /** One call delivers the first of the remaining tokens, as a C string in the buffer,
      leaves the others for later calls, and overwrites nothing but the delimiter
      behind the token; or it reports that there is none. */
  ghost predicate Delivered(before: seq<Piece>, after: seq<Piece>, token: int,
                            old': seq<char>, now: seq<char>, s: string) {
    && |now| == |old'|
    && if before == [] then token == -1 && after == [] && now == old'
       else
         && token == before[0].start <= |now| && after == before[1..]
         && CString(now, before[0].start) == Text(s, before[0])
         && forall k :: 0 <= k < |now| && k != before[0].end ==> now[k] == old'[k]
  }

  /** From `i` on, the buffer still holds what it held when it was `s`. */
  ghost predicate Remains(a: seq<char>, s: string, i: nat) {
    && i <= |s| < |a| && NUL !in s && a[|s|] == NUL
    && forall k :: i <= k < |s| ==> a[k] == s[k]
  }

  lemma CutDelivers(s: string, i: nat, b: nat, e: nat, d: char, old': seq<char>, now: seq<char>)
    requires Remains(old', s, i) && i <= b < e <= |s| && b == Skip(s, i, d) && e == Span(s, b, d)
    requires now == old'[e := NUL]
    ensures Delivered(Pieces(s, i, d), Pieces(s, After(s, e), d), b, old', now, s)
    ensures Remains(now, s, After(s, e))
  {
    CStringIs(now, b, e);
    assert now[b..e] == s[b..e];
  }

  /** The hidden variable of `strtok`: the buffer of the last call that named one, and
      where the next call goes on. What the buffer held then is bookkeeping. */
  class Tokenizer {
    var text: array<char>
    var next: nat
    ghost var content: string

    constructor ()
      ensures Valid() && fresh(text) && content == []
    {
      text := new char[1](_ => NUL);
      next := 0;
      content := [];
    }

    ghost predicate Valid()
      reads this, text
    {
      Remains(text[..], content, next)
    }

    ghost function Rest(d: char): seq<Piece>
      requires next <= |content|
      reads this
    {
      Pieces(content, next, d)
    }

    /** `strtok(s, d)`. The result is an index into the buffer, or -1 for NULL. */
    method First(s: array<char>, d: char, ghost c: string) returns (token: int)
      requires Holds(s[..], c) && d != NUL
      modifies this, s
      ensures Valid() && text == s && content == c
      ensures Delivered(Pieces(c, 0, d), Rest(d), token, old(s[..]), s[..], c)
    {
      text, next, content := s, 0, c;
      assert forall k :: 0 <= k < |c| ==> s[k] == s[..|c|][k];
      token := Next(d);
    }

    /** `strtok(NULL, d)`. */
    method Next(d: char) returns (token: int)
      requires Valid() && d != NUL
      modifies this, text
      ensures Valid() && text == old(text) && content == old(content)
      ensures Delivered(old(Rest(d)), Rest(d), token, old(text[..]), text[..], content)
    {
      var b := PastDelimiters(d);
      if text[b] == NUL {
        next := b;
        return -1;
      }
      var e := PastToken(b, d);
      token := b;
      if text[e] != NUL {
        text[e] := NUL;
        next := e + 1;
      } else {
        next := e;
      }
      assert text[..] == old(text[..])[e := NUL];
      CutDelivers(content, old(next), b, e, d, old(text[..]), text[..]);
    }

    method PastDelimiters(d: char) returns (b: nat)
      requires Valid() && d != NUL
      ensures next <= b <= |content| && b == Skip(content, next, d) && (text[b] == NUL <==> b == |content|)
    {
      b := next;
      while text[b] != NUL && text[b] == d
        invariant next <= b <= |content|
        invariant Skip(content, next, d) == Skip(content, b, d)
        decreases |content| - b
      {
        b := b + 1;
      }
    }

    method PastToken(b: nat, d: char) returns (e: nat)
      requires Valid() && d != NUL && next <= b < |content| && content[b] != d
      ensures b < e <= |content| && e == Span(content, b, d) && (text[e] == NUL <==> e == |content|)
    {
      e := b;
      while text[e] != NUL && text[e] != d
        invariant b <= e <= |content|
        invariant Span(content, b, d) == Span(content, e, d)
        invariant e == b ==> e < |content| && content[e] != d
        decreases |content| - e
      {
        e := e + 1;
      }
    }
  }

  // ---------- the two passes ----------

  /** The first pass: how many tokens the copy has. It leaves the copy in pieces. */
  method CountTokens(t: Tokenizer, copy: array<char>, ghost s: string) returns (count: nat)
    requires Holds(copy[..], s)
    modifies t, copy
    ensures count == |Tokens(s, ',')|
  {
    count := 0;
    var b := t.First(copy, ',', s);
    while b != -1
      invariant t.Valid() && t.text == copy && t.content == s
      invariant b == -1 ==> count + |t.Rest(',')| == |Pieces(s, 0, ',')|
      invariant b != -1 ==> count + 1 + |t.Rest(',')| == |Pieces(s, 0, ',')|
      invariant b == -1 ==> t.Rest(',') == []
      decreases if b == -1 then 0 else 1 + |t.Rest(',')|
    {
      count := count + 1;
      b := t.Next(',');
    }
  }

  /** The token just delivered and those to come. */
  ghost predicate Ahead(pieces: seq<Piece>, done: nat, token: int, rest: seq<Piece>) {
    && done <= |pieces|
    && if token == -1 then done == |pieces| && rest == []
       else done < |pieces| && token == pieces[done].start && rest == pieces[done + 1..]
  }

  /** What `s` says: the values of its tokens, each marked with its place. */
  function Values(s: string, atoi: string -> int): (cells: seq<Cell>)
    ensures |cells| == |Tokens(s, ',')|
  {
    seq(|Tokens(s, ',')|, k requires 0 <= k < |Tokens(s, ',')| => Cell(atoi(Tokens(s, ',')[k]), k))
  }

  /** `cells` are the numbers that `s` says, without reference to how it is taken apart:
      one for each token, in the place that is the number of tokens before it. */
  ghost predicate ReadsAs(s: string, atoi: string -> int, cells: seq<Cell>) {
    && |cells| == |StartsBefore(s, ',', |s|)|
    && forall p :: IsPiece(s, ',', p) ==>
         var k := |StartsBefore(s, ',', p.start)|;
         k < |cells| && cells[k] == Cell(atoi(s[p.start..p.end]), k)
  }

  /** And there is just one such sequence of numbers. */
  lemma ReadsAsItsValues(s: string, atoi: string -> int, cells: seq<Cell>)
    ensures ReadsAs(s, atoi, cells) <==> cells == Values(s, atoi)
  {
    var pieces := Pieces(s, 0, ',');
    PiecesInOrder(s, 0, ',');
    StartsCounted(s, ',', |pieces|);
    forall k | 0 <= k < |pieces|
      ensures |StartsBefore(s, ',', pieces[k].start)| == k && IsPiece(s, ',', pieces[k])
    {
      StartsCounted(s, ',', k);
    }
    forall p | IsPiece(s, ',', p)
      ensures exists k :: 0 <= k < |pieces| && pieces[k] == p
    {
      EveryPieceFound(s, 0, ',', p);
    }
  }

  ghost predicate Converted(numbers: seq<Cell>, s: string, pieces: seq<Piece>, done: nat, atoi: string -> int) {
    && done <= |numbers| == |pieces|
    && forall k :: 0 <= k < done ==> numbers[k] == Cell(atoi(Text(s, pieces[k])), k)
  }

  /** The second pass, into an array of the size that the first has found: its writes
      stay within the array and fill all of it. */
  method FillNumbers(t: Tokenizer, text: array<char>, ghost s: string, numbers: array<Cell>, atoi: string -> int)
    requires Holds(text[..], s) && numbers.Length == |Tokens(s, ',')|
    modifies t, text, numbers
    ensures numbers[..] == Values(s, atoi) && ReadsAs(s, atoi, numbers[..])
  {
    ReadsAsItsValues(s, atoi, Values(s, atoi));
    ghost var pieces := Pieces(s, 0, ',');
    var p := t.First(text, ',', s);
    var i := 0;
    while p != -1
      invariant t.Valid() && t.text == text && t.content == s
      invariant Ahead(pieces, i, p, t.Rest(','))
      invariant p != -1 ==> 0 <= p <= text.Length && CString(text[..], p) == Text(s, pieces[i])
      invariant Converted(numbers[..], s, pieces, i, atoi)
      decreases |pieces| - i
    {
      numbers[i] := Cell(atoi(CString(text[..], p)), i);
      p := t.Next(',');
      i := i + 1;
    }
  }

  /** `strcpy`. */
  method CopyString(from: array<char>, to: array<char>, ghost s: string)
    requires from != to && Holds(from[..], s) && |s| < to.Length
    modifies to
    ensures Holds(to[..], s) && from[..] == old(from[..])
  {
    var i := 0;
    while from[i] != NUL
      invariant i <= |s| && (from[i] == NUL <==> i == |s|)
      invariant forall k :: 0 <= k < i ==> to[k] == s[k]
      decreases |s| - i
    {
      to[i] := from[i];
      i := i + 1;
    }
    to[i] := NUL;
    assert to[..][..|s|] == s;
  }

  /** Both passes: the array is allocated with as many slots as the copy has tokens, and
      each slot gets the value of its token. */
  method Parse(t: Tokenizer, text: array<char>, copy: array<char>, ghost s: string, atoi: string -> int)
    returns (numbers: array<Cell>)
    requires text != copy && Holds(text[..], s) && |s| < copy.Length
    modifies t, text, copy
    ensures fresh(numbers) && numbers[..] == Values(s, atoi) && ReadsAs(s, atoi, numbers[..])
  {
    CopyString(text, copy, s);
    var size := CountTokens(t, copy, s);
    numbers := new Cell[size](_ => Cell(0, 0));
    FillNumbers(t, text, s, numbers, atoi);
  }

  /** Tokens take at least one character and, but for the last, a delimiter. */
  lemma {:induction false} FewPieces(s: string, i: nat, d: char)
    requires i <= |s|
    ensures 2 * |Pieces(s, i, d)| <= |s| - i + 1
    decreases |s| - i
  {
    var b := Skip(s, i, d);
    if b < |s| {
      var e := Span(s, b, d);
      FewPieces(s, After(s, e), d);
      if e == |s| {
        assert Pieces(s, After(s, e), d) == [];
      }
    }
  }

  // ---------- merge_threads.c: the first line that is more than a newline ----------

  /** What `fgets` can deliver of a text file: at most one newline, at the end. */
  ghost predicate IsLine(line: string) {
    && 0 < |line| < LINE_BUFFER && NUL !in line
    && forall k :: 0 <= k < |line| - 1 ==> line[k] != '\n'
  }

  function Stripped(line: string): string {
    if line != [] && line[|line| - 1] == '\n' then line[..|line| - 1] else line
  }

  /** The loop goes on while lines consist of a single character, be it a newline or not. */
  function Numbers(lines: seq<string>, atoi: string -> int): seq<Cell> {
    if lines == [] then []
    else if |lines[0]| != 1 then Values(Stripped(lines[0]), atoi)
    else Numbers(lines[1..], atoi)
  }

  /** `text` is what the line says: all of it but its newline. */
  predicate Says(line: string, text: string) {
    '\n' !in text && (line == text || line == text + "\n")
  }

  lemma SaysItsStripped(line: string, text: string)
    requires IsLine(line)
    ensures Says(line, text) <==> text == Stripped(line)
  {
    if line[|line| - 1] == '\n' {
      assert line == line[..|line| - 1] + "\n";
    }
    if line == text + "\n" {
      assert line[..|line| - 1] == text;
    }
  }

  /** The first line of more than one character. */
  predicate IsFirstLong(lines: seq<string>, n: nat) {
    n < |lines| && |lines[n]| > 1 && forall m :: 0 <= m < n ==> |lines[m]| <= 1
  }

  /** The lines before it do not matter, nor do those behind it. */
  lemma {:induction false} SkippedLinesDoNotMatter(lines: seq<string>, n: nat, text: string, atoi: string -> int)
    requires forall k :: 0 <= k < |lines| ==> IsLine(lines[k])
    requires IsFirstLong(lines, n) && Says(lines[n], text)
    ensures Numbers(lines, atoi) == Values(text, atoi)
    decreases n
  {
    if n == 0 {
      SaysItsStripped(lines[0], text);
    } else {
      assert IsLine(lines[0]);
      SkippedLinesDoNotMatter(lines[1..], n - 1, text, atoi);
    }
  }

  lemma {:induction false} NoLongLine(lines: seq<string>, atoi: string -> int)
    requires forall k :: 0 <= k < |lines| ==> IsLine(lines[k]) && |lines[k]| <= 1
    ensures Numbers(lines, atoi) == []
  {
    if lines != [] {
      assert IsLine(lines[0]);
      NoLongLine(lines[1..], atoi);
    }
  }

  /** `fgets`: the line and a NUL, at the front of the buffer. */
  method Load(buffer: array<char>, line: string)
    requires |line| < buffer.Length && NUL !in line
    modifies buffer
    ensures Holds(buffer[..], line)
  {
    for i := 0 to |line|
      invariant forall k :: 0 <= k < i ==> buffer[k] == line[k]
    {
      buffer[i] := line[i];
    }
    buffer[|line|] := NUL;
    assert buffer[..][..|line|] == line;
  }

  lemma {:induction false} CStringEnds(a: seq<char>, i: nat, s: string)
    requires i <= |a| && CString(a, i) == s && i + |s| < |a|
    ensures a[i + |s|] == NUL && NUL !in s && a[i..i + |s|] == s
    decreases |s|
  {
    if s != [] {
      CStringEnds(a, i + 1, s[1..]);
      assert a[i..i + |s|] == [a[i]] + a[i + 1..i + 1 + |s[1..]|];
    }
  }

  /** `strtok(ch, "\n")` takes the newline off the line. */
  method StripLine(t: Tokenizer, ch: array<char>, ghost line: string)
    requires IsLine(line) && |line| != 1 && Holds(ch[..], line)
    modifies t, ch
    ensures Holds(ch[..], Stripped(line))
  {
    var input := t.First(ch, '\n', line);
    CStringEnds(ch[..], 0, Stripped(line));
  }

  lemma NumbersRead(lines: seq<string>, atoi: string -> int)
    requires forall k :: 0 <= k < |lines| ==> IsLine(lines[k])
    ensures forall n: nat, text :: IsFirstLong(lines, n) && Says(lines[n], text) ==>
      ReadsAs(text, atoi, Numbers(lines, atoi))
    ensures (forall k :: 0 <= k < |lines| ==> |lines[k]| <= 1) ==> Numbers(lines, atoi) == []
  {
    forall n: nat, text | IsFirstLong(lines, n) && Says(lines[n], text)
      ensures ReadsAs(text, atoi, Numbers(lines, atoi))
    {
      SkippedLinesDoNotMatter(lines, n, text, atoi);
      ReadsAsItsValues(text, atoi, Numbers(lines, atoi));
    }
    if forall k :: 0 <= k < |lines| ==> |lines[k]| <= 1 {
      NoLongLine(lines, atoi);
    }
  }

  /** Reading and parsing in `main` of `merge_threads.c`; without any acceptable line the
      array stays empty. */
  method ReadNumbers(lines: seq<string>, atoi: string -> int) returns (numbers: array<Cell>)
    requires forall k :: 0 <= k < |lines| ==> IsLine(lines[k])
    ensures fresh(numbers) && numbers[..] == Numbers(lines, atoi)
    ensures forall n: nat, text :: IsFirstLong(lines, n) && Says(lines[n], text) ==> ReadsAs(text, atoi, numbers[..])
    ensures (forall k :: 0 <= k < |lines| ==> |lines[k]| <= 1) ==> numbers.Length == 0
  {
    NumbersRead(lines, atoi);
    var t := new Tokenizer();
    var ch := new char[LINE_BUFFER](_ => NUL);
    numbers := new Cell[0];
    for i := 0 to |lines|
      invariant fresh(t) && fresh(ch) && fresh(numbers) && ch.Length == LINE_BUFFER && numbers.Length == 0
      invariant Numbers(lines, atoi) == Numbers(lines[i..], atoi)
    {
      Load(ch, lines[i]);
      if |lines[i]| != 1 {
        StripLine(t, ch, lines[i]);
        var ch2 := new char[LINE_BUFFER](_ => NUL);
        numbers := Parse(t, ch, ch2, Stripped(lines[i]), atoi);
        return;
      }
    }
  }

  // ---------- merge.c: the argument ----------

  /** Parsing in `main` of `merge.c`. The argument has to fit into the copy. */
  method ReadArgument(argument: array<char>, ghost s: string, atoi: string -> int) returns (numbers: array<Cell>)
    requires Holds(argument[..], s) && |s| < ARGUMENT_BUFFER
    modifies argument
    ensures fresh(numbers) && numbers[..] == Values(s, atoi) && 2 * numbers.Length <= ARGUMENT_BUFFER
    ensures ReadsAs(s, atoi, numbers[..])
  {
    var t := new Tokenizer();
    var ch2 := new char[ARGUMENT_BUFFER](_ => NUL);
    FewPieces(s, 0, ',');
    numbers := Parse(t, argument, ch2, s, atoi);
    assert numbers.Length == |Tokens(s, ',')|;
  }
}
