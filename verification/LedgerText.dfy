/** An append-only ledger as the text it is: one JSON object a line, written by appends that may be cut off anywhere,
    and read by decoding every line. */
module LedgerText {
  import opened Wrappers

  /** The JSON writer and reader of the host language, for rows that are objects. */
  datatype Codec<!T> = Codec(encode: T -> string, decode: string -> Option<T>)

  // ----- What any JSON reader asks of an object's brackets and quotes -----

  datatype Place = Between | InString | Escaped | Closed | Done | Broken

  /** How many brackets are open, and where in the text of an object one stands. */
  datatype Scan = Scan(depth: nat, place: Place)

  const START := Scan(0, Between)

  predicate Blank(c: char) {
    c == ' ' || c == '\t' || c == '\n' || c == '\r'
  }

  function Outside(s: Scan, c: char): Scan {
    if c == '"' then Scan(s.depth, InString)
    else if c == '{' || c == '[' then Scan(s.depth + 1, Between)
    else if c == '}' || c == ']' then
      if s.depth == 0 then Scan(0, Broken) else if s.depth == 1 then Scan(0, Done) else Scan(s.depth - 1, Between)
    else Scan(s.depth, Between)
  }

  /** Behind a string only a separator, a closing bracket or white space can follow; behind the object only white
      space. */
  function Next(s: Scan, c: char): Scan {
    match s.place
    case Between => Outside(s, c)
    case InString => Scan(s.depth, if c == '"' then Closed else if c == '\\' then Escaped else InString)
    case Escaped => Scan(s.depth, InString)
    case Closed =>
      if Blank(c) then s
      else if c == ',' || c == ':' || c == '}' || c == ']' then Outside(s, c)
      else Scan(s.depth, Broken)
    case Done => if Blank(c) then s else Scan(s.depth, Broken)
    case Broken => s
  }

  function Feed(s: Scan, text: string): Scan {
    if text == [] then s else Next(Feed(s, text[..|text| - 1]), text[|text| - 1])
  }

  predicate Letter(c: char) {
    'a' <= c <= 'z'
  }

  /** What is known of writer and reader: a row is written on one line as an object whose first key starts with a
      letter, it is read back, and no text that starts as an object is read unless its brackets and quotes match up. */
  ghost predicate Sound<T(!new)>(codec: Codec<T>) {
    && (forall row :: Written(codec.encode(row)) && codec.decode(codec.encode(row)) == Some(row))
    && forall text :: Opens(text) && codec.decode(text).Some? ==> Feed(START, text).place == Done
  }

  predicate Opens(text: string) {
    text != [] && text[0] == '{'
  }

  predicate Written(text: string) {
    && |text| >= 3 && text[0] == '{' && text[1] == '"' && Letter(text[2]) && text[|text| - 1] == '}'
    && '\n' !in text
  }

  // ----- An example: numbers written in ones -----

  function Ones(n: nat): string {
    if n == 0 then [] else Ones(n - 1) + "1"
  }

  function InOnes(n: nat): string {
    ['{'] + (['"'] + (['n'] + (['"'] + ([':'] + (Ones(n) + ['}'])))))
  }

  lemma {:induction false} OnesScan(n: nat)
    ensures |Ones(n)| == n && '\n' !in Ones(n) && Feed(Scan(1, Between), Ones(n)) == Scan(1, Between)
  {
    if n > 0 {
      OnesScan(n - 1);
      assert Ones(n)[..n - 1] == Ones(n - 1);
    }
  }

  lemma {:induction false} InOnesScans(n: nat)
    ensures Written(InOnes(n)) && Feed(START, InOnes(n)).place == Done && |InOnes(n)| == n + 6
  {
    OnesScan(n);
    var tail := Ones(n) + ['}'];
    FeedMore(Scan(1, Between), Ones(n), ['}']);
    FeedFirst(Scan(1, Between), '}', []);
    FeedFirst(Scan(1, Closed), ':', tail);
    FeedFirst(Scan(1, InString), '"', [':'] + tail);
    FeedFirst(Scan(1, InString), 'n', ['"'] + ([':'] + tail));
    FeedFirst(Scan(1, Between), '"', ['n'] + (['"'] + ([':'] + tail)));
    FeedFirst(START, '{', ['"'] + (['n'] + (['"'] + ([':'] + tail))));
  }

  lemma {:induction false} FeedFirst(s: Scan, c: char, text: string)
    ensures Feed(s, [c] + text) == Feed(Next(s, c), text)
  {
    FeedMore(s, [c], text);
    assert [c][..0] == [];
  }

  function FromOnes(text: string): Option<nat> {
    if |text| >= 6 && text == InOnes(|text| - 6) then Some(|text| - 6) else None
  }

  const ONES := Codec<nat>.Codec(InOnes, FromOnes)

  /** What is asked of writer and reader can be had. */
  lemma {:induction false} SomeCodecIsSound()
    ensures Sound(ONES)
  {
    forall row: nat
      ensures Written(ONES.encode(row)) && ONES.decode(ONES.encode(row)) == Some(row) {
      InOnesScans(row);
    }
    forall text | Opens(text) && ONES.decode(text).Some?
      ensures Feed(START, text).place == Done {
      InOnesScans(|text| - 6);
    }
  }

  // ----- Writing -----

  function Line<T>(codec: Codec<T>, row: T): string {
    codec.encode(row) + "\n"
  }

  /** One append: how many characters of the line reached the file. */
  datatype Piece<T> = Piece(row: T, written: nat)

  ghost predicate Possible<T>(codec: Codec<T>, pieces: seq<Piece<T>>) {
    forall i :: 0 <= i < |pieces| ==> pieces[i].written <= |Line(codec, pieces[i].row)|
  }

  /** The file after these appends. */
  function TextOf<T>(codec: Codec<T>, pieces: seq<Piece<T>>): string
    requires Possible(codec, pieces)
  {
    if pieces == [] then []
    else
      var last := pieces[|pieces| - 1];
      TextOf(codec, pieces[..|pieces| - 1]) + Line(codec, last.row)[..last.written]
  }

  predicate Whole<T>(codec: Codec<T>, piece: Piece<T>) {
    piece.written == |Line(codec, piece.row)|
  }

  /** A part of the line was written, and not all of it. */
  predicate Cut<T>(codec: Codec<T>, piece: Piece<T>) {
    0 < piece.written < |Line(codec, piece.row)|
  }

  predicate AnyCut<T>(codec: Codec<T>, pieces: seq<Piece<T>>) {
    exists i :: 0 <= i < |pieces| && Cut(codec, pieces[i])
  }

  function WholeRows<T>(codec: Codec<T>, pieces: seq<Piece<T>>): seq<T> {
    if pieces == [] then []
    else
      var last := pieces[|pieces| - 1];
      WholeRows(codec, pieces[..|pieces| - 1]) + (if Whole(codec, last) then [last.row] else [])
  }

  // ----- Reading -----

  /** The rows of the finished lines, if all of them decode, and the line that is not finished. */
  datatype Reading<T> = Reading(rows: Option<seq<T>>, rest: string)

  function ReadChar<T>(codec: Codec<T>, r: Reading<T>, c: char): Reading<T> {
    if c != '\n' then r.(rest := r.rest + [c])
    else
      var row := codec.decode(r.rest);
      Reading(if r.rows.Some? && row.Some? then Some(r.rows.value + [row.value]) else None, [])
  }

  function Read<T>(codec: Codec<T>, text: string): Reading<T> {
    if text == [] then Reading(Some([]), []) else ReadChar(codec, Read(codec, text[..|text| - 1]), text[|text| - 1])
  }

  datatype Unreadable = TooLarge | TornWrite | BadLine

  /** What is read of a private file at most; each character stands for one byte. */
  const LIMIT := 65536

  /** A ledger above the limit is refused, and so is one that does not end with a line end or has a line that does not
      decode. */
  function Records<T>(codec: Codec<T>, text: string): Result<seq<T>, Unreadable> {
    if |text| > LIMIT then Err(TooLarge)
    else if text != [] && text[|text| - 1] != '\n' then Err(TornWrite)
    else
      var rows := Read(codec, text).rows;
      if rows.Some? then Ok(rows.value) else Err(BadLine)
  }

  // ----- A piece of an object's text and what is glued to it -----

  /** Something stands there, and it is not a whole object that could be read. */
  predicate Begun(s: Scan) {
    s.place == Done || s.place == Broken || s.depth > 0
  }

  lemma {:induction false} FeedKeepsBegun(s: Scan, text: string)
    requires Begun(s)
    ensures Begun(Feed(s, text))
  {
    if text != [] { FeedKeepsBegun(s, text[..|text| - 1]); }
  }

  lemma {:induction false} FeedMore(s: Scan, a: string, b: string)
    ensures Feed(s, a + b) == Feed(Feed(s, a), b)
  {
    if b == [] {
      assert a + b == a;
    } else {
      assert (a + b)[..|a + b| - 1] == a + b[..|b| - 1];
      FeedMore(s, a, b[..|b| - 1]);
    }
  }

  lemma {:induction false} BrokenStays(s: Scan, text: string)
    requires s.place == Broken
    ensures Feed(s, text) == s
  {
    if text != [] { BrokenStays(s, text[..|text| - 1]); }
  }

  /** Inside open brackets an object is scanned as at the start, that many brackets deeper. */
  predicate Deeper(at: Scan, under: Scan, depth: nat) {
    if at.place == Done then under == Scan(depth, Between)
    else at.place != Broken ==> under == Scan(at.depth + depth, at.place)
  }

  lemma {:induction false} FeedDeeper(text: string, depth: nat)
    requires depth > 0
    ensures Deeper(Feed(START, text), Feed(Scan(depth, Between), text), depth)
  {
    if text != [] {
      FeedDeeper(text[..|text| - 1], depth);
    }
  }

  lemma {:induction false} FeedStart(s: Scan, text: string)
    requires |text| >= 3
    ensures Feed(s, text) == Feed(Next(Next(Next(s, text[0]), text[1]), text[2]), text[3..])
  {
    assert text == text[..3] + text[3..];
    FeedMore(s, text[..3], text[3..]);
    assert text[..3][..2] == text[..2] && text[..2][..1] == text[..1] && text[..1][..0] == [];
    assert Feed(s, text[..1]) == Next(s, text[0]);
    assert Feed(s, text[..2]) == Next(Next(s, text[0]), text[1]);
  }

  lemma {:induction false} PrefixIsNotBroken(text: string, n: nat)
    requires n <= |text| && Feed(START, text).place == Done
    ensures Feed(START, text[..n]).place != Broken
  {
    assert text == text[..n] + text[n..];
    FeedMore(START, text[..n], text[n..]);
    if Feed(START, text[..n]).place == Broken { BrokenStays(Feed(START, text[..n]), text[n..]); }
  }

  /** A row, or the beginning of one, that is glued to the rest of a cut one does not complete it. */
  lemma {:induction false} GluedIsNoObject(s: Scan, text: string, n: nat)
    requires Begun(s) && Written(text) && Feed(START, text).place == Done && 0 < n <= |text|
    ensures Feed(s, text[..n]).place != Done
  {
    if s.place == Between {
      PrefixIsNotBroken(text, n);
      FeedDeeper(text[..n], s.depth);
    } else if n < 3 {
      assert text[..n][..n - 1] == text[..n - 1] && text[..1][..0] == [];
      assert Feed(s, text[..1]) == Next(s, '{');
    } else {
      FeedStart(s, text[..n]);
      var third := Next(Next(Next(s, text[0]), text[1]), text[2]);
      assert third.place == Broken;
      BrokenStays(third, text[..n][3..]);
    }
  }

  /** A row that was cut off before its last character is not an object either. */
  lemma {:induction false} ProperPieceIsNoObject(text: string, n: nat)
    requires Written(text) && Feed(START, text).place == Done && n < |text|
    ensures Feed(START, text[..n]).place != Done
  {
    if Feed(START, text[..n]).place == Done {
      var front := text[..|text| - 1];
      assert front == text[..n] + text[n..|text| - 1];
      FeedMore(START, text[..n], text[n..|text| - 1]);
      DoneOrBroken(Feed(START, text[..n]), text[n..|text| - 1]);
      assert false;
    }
  }

  lemma {:induction false} DoneOrBroken(s: Scan, text: string)
    requires s.place == Done || s.place == Broken
    ensures Feed(s, text).place == Done || Feed(s, text).place == Broken
  {
    if text != [] { DoneOrBroken(s, text[..|text| - 1]); }
  }

  lemma {:induction false} PieceBegins(text: string, n: nat)
    requires Written(text) && 0 < n <= |text|
    ensures Begun(Feed(START, text[..n]))
  {
    if n == 1 {
      assert text[..1][..0] == [];
    } else {
      assert text[..n][..n - 1] == text[..n - 1];
      PieceBegins(text, n - 1);
      FeedMore(START, text[..n - 1], [text[n - 1]]);
      assert text[..n] == text[..n - 1] + [text[n - 1]];
      FeedKeepsBegun(Feed(START, text[..n - 1]), [text[n - 1]]);
    }
  }

  // ----- Reading what was appended -----

  lemma {:induction false} ReadOneLine<T>(codec: Codec<T>, text: string, piece: string)
    requires '\n' !in piece
    ensures Read(codec, text + piece) == Read(codec, text).(rest := Read(codec, text).rest + piece)
  {
    if piece == [] {
      assert text + piece == text;
    } else {
      var front := piece[..|piece| - 1];
      assert (text + piece)[..|text + piece| - 1] == text + front;
      ReadOneLine(codec, text, front);
      assert Read(codec, text).rest + front + [piece[|piece| - 1]] == Read(codec, text).rest + piece;
    }
  }

  lemma {:induction false} ReadWhole<T>(codec: Codec<T>, text: string, line: string)
    requires '\n' !in line
    ensures Read(codec, text + (line + "\n")) ==
      ReadChar(codec, Read(codec, text).(rest := Read(codec, text).rest + line), '\n')
  {
    ReadOneLine(codec, text, line);
    var all := text + (line + "\n");
    assert all[..|all| - 1] == text + line && all[|all| - 1] == '\n';
  }

  /** While nothing was cut, the rows stand there and no line is open. Afterwards a line that can never be read is
      open, or one has been closed. */
  ghost predicate ReadsAs<T>(codec: Codec<T>, r: Reading<T>, rows: seq<T>, cut: bool) {
    if !cut then r == Reading(Some(rows), [])
    else (r.rest == [] && r.rows.None?) || (Opens(r.rest) && Begun(Feed(START, r.rest)))
  }

  lemma {:induction false} AppendWhole<T(!new)>(codec: Codec<T>, text: string, rows: seq<T>, cut: bool, row: T)
    requires Sound(codec) && ReadsAs(codec, Read(codec, text), rows, cut)
    ensures ReadsAs(codec, Read(codec, text + Line(codec, row)), rows + [row], cut)
  {
    var line, r := codec.encode(row), Read(codec, text);
    ReadWhole(codec, text, line);
    assert Feed(START, line).place == Done;
    if r.rest == [] {
      assert r.rest + line == line;
    } else {
      FeedMore(START, r.rest, line);
      GluedIsNoObject(Feed(START, r.rest), line, |line|);
      assert line[..|line|] == line;
      assert Opens(r.rest + line);
    }
  }

  lemma {:induction false} AppendCut<T(!new)>(codec: Codec<T>, text: string, rows: seq<T>, cut: bool, row: T, n: nat)
    requires Sound(codec) && ReadsAs(codec, Read(codec, text), rows, cut) && 0 < n <= |codec.encode(row)|
    ensures ReadsAs(codec, Read(codec, text + Line(codec, row)[..n]), rows, true)
  {
    var piece, r := codec.encode(row)[..n], Read(codec, text);
    assert Line(codec, row)[..n] == piece;
    ReadOneLine(codec, text, piece);
    if r.rest == [] {
      assert r.rest + piece == piece;
      PieceBegins(codec.encode(row), n);
    } else {
      FeedMore(START, r.rest, piece);
      FeedKeepsBegun(Feed(START, r.rest), piece);
    }
  }

  lemma {:induction false} AnyCutMore<T>(codec: Codec<T>, pieces: seq<Piece<T>>)
    requires pieces != []
    ensures AnyCut(codec, pieces) <==> AnyCut(codec, pieces[..|pieces| - 1]) || Cut(codec, pieces[|pieces| - 1])
  {
    var front := pieces[..|pieces| - 1];
    if i :| 0 <= i < |front| && Cut(codec, front[i]) { assert Cut(codec, pieces[i]); }
    if i :| 0 <= i < |pieces| && Cut(codec, pieces[i]) && i < |front| { assert Cut(codec, front[i]); }
  }

  lemma {:induction false} ReadAppends<T(!new)>(codec: Codec<T>, pieces: seq<Piece<T>>)
    requires Sound(codec) && Possible(codec, pieces)
    ensures ReadsAs(codec, Read(codec, TextOf(codec, pieces)), WholeRows(codec, pieces), AnyCut(codec, pieces))
  {
    if pieces != [] {
      var front, last := pieces[..|pieces| - 1], pieces[|pieces| - 1];
      ReadAppends(codec, front);
      AnyCutMore(codec, pieces);
      var text, rows := TextOf(codec, front), WholeRows(codec, front);
      var line := Line(codec, last.row);
      if last.written == 0 {
        assert text + line[..0] == text && WholeRows(codec, pieces) == rows;
      } else if Whole(codec, last) {
        assert line[..last.written] == line;
        AppendWhole(codec, text, rows, AnyCut(codec, front), last.row);
      } else {
        AppendCut(codec, text, rows, AnyCut(codec, front), last.row, last.written);
      }
    }
  }

  /** Reading a ledger fails exactly when it is above the limit or some append was cut off, the latter also after any
      number of later appends: what is glued to a cut line never makes it whole. Otherwise it gives the appended rows in
      order. */
  lemma {:induction false} ReadableIffWholeAndSmall<T(!new)>(codec: Codec<T>, pieces: seq<Piece<T>>)
    requires Sound(codec) && Possible(codec, pieces)
    ensures var text := TextOf(codec, pieces);
      && (Records(codec, text).Ok? <==> !AnyCut(codec, pieces) && |text| <= LIMIT)
      && (Records(codec, text).Ok? ==> Records(codec, text) == Ok(WholeRows(codec, pieces)))
  {
    ReadAppends(codec, pieces);
    EndsOpen(codec, TextOf(codec, pieces));
  }

  /** The same row appended so many times, always whole. */
  function Repeated<T>(codec: Codec<T>, row: T, times: nat): seq<Piece<T>> {
    if times == 0 then [] else Repeated(codec, row, times - 1) + [Piece(row, |Line(codec, row)|)]
  }

  lemma {:induction false} RepeatedIsWhole<T>(codec: Codec<T>, row: T, times: nat)
    ensures var pieces := Repeated(codec, row, times);
      |pieces| == times && Possible(codec, pieces) && !AnyCut(codec, pieces)
  {
    if times > 0 {
      RepeatedIsWhole(codec, row, times - 1);
      var pieces := Repeated(codec, row, times);
      assert pieces[..times - 1] == Repeated(codec, row, times - 1);
      AnyCutMore(codec, pieces);
    }
  }

  lemma {:induction false} RepeatedGrows<T(!new)>(codec: Codec<T>, row: T, times: nat)
    requires Sound(codec) && Possible(codec, Repeated(codec, row, times))
    ensures |TextOf(codec, Repeated(codec, row, times))| >= 4 * times
  {
    if times > 0 {
      var pieces, line := Repeated(codec, row, times), Line(codec, row);
      RepeatedIsWhole(codec, row, times - 1);
      RepeatedGrows(codec, row, times - 1);
      assert pieces[..|pieces| - 1] == Repeated(codec, row, times - 1);
      assert line[..|line|] == line && |line| >= 4;
    }
  }

  /** Appends that all succeed make any ledger unreadable in the end: 16385 rows are too many, however short. */
  lemma {:induction false} WholeLedgersOutgrow<T(!new)>(codec: Codec<T>, row: T, times: nat)
    requires Sound(codec) && 4 * times > LIMIT
    ensures var pieces := Repeated(codec, row, times);
      && |pieces| == times && Possible(codec, pieces) && !AnyCut(codec, pieces)
      && Records(codec, TextOf(codec, pieces)) == Err(TooLarge)
  {
    RepeatedIsWhole(codec, row, times);
    RepeatedGrows(codec, row, times);
  }

  /** The test of the last byte looks whether a line is open. */
  lemma {:induction false} EndsOpen<T>(codec: Codec<T>, text: string)
    ensures Read(codec, text).rest != [] <==> text != [] && text[|text| - 1] != '\n'
  {
  }

  /** A ledger with the appends that made it: the rows that were appended whole, and whether anything was cut. */
  datatype Ledger<T> = Ledger(text: string, pieces: seq<Piece<T>>, rows: seq<T>, torn: bool)

  ghost predicate Holds<T>(codec: Codec<T>, l: Ledger<T>) {
    && Possible(codec, l.pieces) && l.text == TextOf(codec, l.pieces)
    && l.rows == WholeRows(codec, l.pieces) && (l.torn <==> AnyCut(codec, l.pieces))
  }

  function Grown<T>(codec: Codec<T>, l: Ledger<T>, piece: Piece<T>): Ledger<T>
    requires piece.written <= |Line(codec, piece.row)|
  {
    Ledger(l.text + Line(codec, piece.row)[..piece.written], l.pieces + [piece],
           if Whole(codec, piece) then l.rows + [piece.row] else l.rows, l.torn || Cut(codec, piece))
  }

  lemma {:induction false} GrownHolds<T>(codec: Codec<T>, l: Ledger<T>, piece: Piece<T>)
    requires Holds(codec, l) && piece.written <= |Line(codec, piece.row)|
    ensures Holds(codec, Grown(codec, l, piece))
  {
    var all := l.pieces + [piece];
    assert all[..|all| - 1] == l.pieces && all[|all| - 1] == piece;
    AnyCutMore(codec, all);
  }

  lemma {:induction false} HoldsReads<T(!new)>(codec: Codec<T>, l: Ledger<T>)
    requires Sound(codec) && Holds(codec, l)
    ensures Records(codec, l.text).Ok? <==> !l.torn && |l.text| <= LIMIT
    ensures Records(codec, l.text).Ok? ==> Records(codec, l.text) == Ok(l.rows)
  {
    ReadableIffWholeAndSmall(codec, l.pieces);
  }

  // ----- A reader that does not look at the last byte -----

  /** Every line is decoded, the last one too when it lacks its line end. (Appends write no blank lines.) */
  function LenientRecords<T>(codec: Codec<T>, text: string): Option<seq<T>> {
    var r := Read(codec, text);
    if r.rest == [] || r.rows.None? then r.rows
    else
      var row := codec.decode(r.rest);
      if row.Some? then Some(r.rows.value + [row.value]) else None
  }

  /** How the file ends: with a line end, with a row that lacks only its line end, or with something cut inside a
      line. */
  datatype Ending = Clean | Unended | Torn

  function EndingAfter<T>(codec: Codec<T>, before: Ending, piece: Piece<T>): Ending {
    if piece.written == 0 then before
    else if before != Clean then Torn
    else if Whole(codec, piece) then Clean
    else if piece.written == |codec.encode(piece.row)| then Unended
    else Torn
  }

  function EndingOf<T>(codec: Codec<T>, pieces: seq<Piece<T>>): Ending {
    if pieces == [] then Clean
    else EndingAfter(codec, EndingOf(codec, pieces[..|pieces| - 1]), pieces[|pieces| - 1])
  }

  /** The rows whose text was written to its last character. */
  function CompleteRows<T>(codec: Codec<T>, pieces: seq<Piece<T>>): seq<T> {
    if pieces == [] then []
    else
      var last := pieces[|pieces| - 1];
      CompleteRows(codec,
        pieces[..|pieces| - 1]) + (if last.written >= |codec.encode(last.row)| then [last.row] else [])
  }

  ghost predicate EndsAs<T>(codec: Codec<T>, r: Reading<T>, rows: seq<T>, ending: Ending) {
    match ending
    case Clean => r == Reading(Some(rows), [])
    case Unended => rows != [] && r == Reading(Some(rows[..|rows| - 1]), codec.encode(rows[|rows| - 1]))
    case Torn =>
      && (r.rest == [] || (Opens(r.rest) && Begun(Feed(START, r.rest))))
      && (r.rows.None? || (r.rest != [] && Feed(START, r.rest).place != Done))
  }

  lemma {:induction false} OpenLineBegins<T(!new)>(codec: Codec<T>, r: Reading<T>, rows: seq<T>, ending: Ending)
    requires Sound(codec) && EndsAs(codec, r, rows, ending) && r.rest != []
    ensures Opens(r.rest) && Begun(Feed(START, r.rest))
  {
    if ending == Unended {
      PieceBegins(r.rest, |r.rest|);
      assert r.rest[..|r.rest|] == r.rest;
    }
  }

  lemma {:induction false} EndsWhole<T(!new)>(codec: Codec<T>, text: string, rows: seq<T>, ending: Ending, row: T)
    requires Sound(codec) && EndsAs(codec, Read(codec, text), rows, ending)
    ensures EndsAs(codec, Read(codec, text + Line(codec, row)), rows + [row], if ending == Clean then Clean else Torn)
  {
    var line, r := codec.encode(row), Read(codec, text);
    ReadWhole(codec, text, line);
    assert Feed(START, line).place == Done;
    if r.rest == [] {
      assert r.rest + line == line;
    } else {
      OpenLineBegins(codec, r, rows, ending);
      FeedMore(START, r.rest, line);
      GluedIsNoObject(Feed(START, r.rest), line, |line|);
      assert line[..|line|] == line && Opens(r.rest + line);
    }
  }

  lemma {:induction false} EndsCut<T(!new)>(codec: Codec<T>, text: string, rows: seq<T>, ending: Ending, row: T, n: nat)
    requires Sound(codec) && EndsAs(codec, Read(codec, text), rows, ending) && 0 < n <= |codec.encode(row)|
    ensures EndsAs(codec, Read(codec, text + Line(codec, row)[..n]),
      if n == |codec.encode(row)| then rows + [row] else rows,
                   if ending == Clean && n == |codec.encode(row)| then Unended else Torn)
  {
    var line, r := codec.encode(row), Read(codec, text);
    assert Line(codec, row)[..n] == line[..n] && Feed(START, line).place == Done;
    ReadOneLine(codec, text, line[..n]);
    if r.rest == [] {
      assert r.rest + line[..n] == line[..n];
      CutFirst(codec, r, rows, ending, row, n);
    } else {
      OpenLineBegins(codec, r, rows, ending);
      GluedStaysOpen(r.rest, line, n);
    }
  }

  lemma {:induction false} CutFirst<T(!new)>(codec: Codec<T>, r: Reading<T>, rows: seq<T>, ending: Ending, row: T,
                                      n: nat)
    requires Sound(codec) && EndsAs(codec, r, rows, ending) && r.rest == [] && 0 < n <= |codec.encode(row)|
    ensures EndsAs(codec, r.(rest := codec.encode(row)[..n]), if n == |codec.encode(row)| then rows + [row] else rows,
                   if ending == Clean && n == |codec.encode(row)| then Unended else Torn)
  {
    var line := codec.encode(row);
    assert Feed(START, line).place == Done;
    PieceStaysOpen(line, n);
    assert (rows + [row])[..|rows|] == rows;
  }

  lemma {:induction false} PieceStaysOpen(line: string, n: nat)
    requires Written(line) && Feed(START, line).place == Done && 0 < n <= |line|
    ensures Opens(line[..n]) && Begun(Feed(START, line[..n]))
    ensures if n == |line| then line[..n] == line else Feed(START, line[..n]).place != Done
  {
    PieceBegins(line, n);
    if n < |line| { ProperPieceIsNoObject(line, n); }
  }

  lemma {:induction false} GluedStaysOpen(rest: string, line: string, n: nat)
    requires Opens(rest) && Begun(Feed(START, rest))
    requires Written(line) && Feed(START, line).place == Done && 0 < n <= |line|
    ensures Opens(rest + line[..n]) && Begun(Feed(START, rest + line[..n]))
    ensures Feed(START, rest + line[..n]).place != Done
  {
    FeedMore(START, rest, line[..n]);
    FeedKeepsBegun(Feed(START, rest), line[..n]);
    GluedIsNoObject(Feed(START, rest), line, n);
  }

  lemma {:induction false} AppendsEnd<T(!new)>(codec: Codec<T>, pieces: seq<Piece<T>>)
    requires Sound(codec) && Possible(codec, pieces)
    ensures EndsAs(codec, Read(codec, TextOf(codec, pieces)), CompleteRows(codec, pieces), EndingOf(codec, pieces))
  {
    if pieces != [] {
      var front, last := pieces[..|pieces| - 1], pieces[|pieces| - 1];
      AppendsEnd(codec, front);
      var text, rows, line := TextOf(codec, front), CompleteRows(codec, front), Line(codec, last.row);
      if last.written == 0 {
        assert text + line[..0] == text && CompleteRows(codec, pieces) == rows;
      } else if Whole(codec, last) {
        assert line[..last.written] == line;
        EndsWhole(codec, text, rows, EndingOf(codec, front), last.row);
      } else {
        EndsCut(codec, text, rows, EndingOf(codec, front), last.row, last.written);
      }
    }
  }

  /** This reader fails exactly when something is cut inside a line: a last row that lacks only its line end is read,
      until the next append is glued to it. */
  lemma {:induction false} LenientIffNotTorn<T(!new)>(codec: Codec<T>, pieces: seq<Piece<T>>)
    requires Sound(codec) && Possible(codec, pieces)
    ensures LenientRecords(codec, TextOf(codec, pieces))
      == if EndingOf(codec, pieces) == Torn then None else Some(CompleteRows(codec, pieces))
  {
    AppendsEnd(codec, pieces);
    var r, rows := Read(codec, TextOf(codec, pieces)), CompleteRows(codec, pieces);
    if EndingOf(codec, pieces) == Unended {
      assert codec.decode(r.rest) == Some(rows[|rows| - 1]) && rows == rows[..|rows| - 1] + [rows[|rows| - 1]];
    } else if EndingOf(codec, pieces) == Torn && r.rest != [] && codec.decode(r.rest).Some? {
      assert r.rows.None?;
    }
  }

  /** Such a ledger with the appends that made it: the rows whose text is complete, and how the file ends. */
  datatype OpenLedger<T> = OpenLedger(text: string, pieces: seq<Piece<T>>, rows: seq<T>, ending: Ending)

  ghost predicate HoldsOpen<T>(codec: Codec<T>, l: OpenLedger<T>) {
    && Possible(codec, l.pieces) && l.text == TextOf(codec, l.pieces)
    && l.rows == CompleteRows(codec, l.pieces) && l.ending == EndingOf(codec, l.pieces)
  }

  function GrownOpen<T>(codec: Codec<T>, l: OpenLedger<T>, piece: Piece<T>): OpenLedger<T>
    requires piece.written <= |Line(codec, piece.row)|
  {
    OpenLedger(l.text + Line(codec, piece.row)[..piece.written], l.pieces + [piece],
               if piece.written >= |codec.encode(piece.row)| then l.rows + [piece.row] else l.rows,
               EndingAfter(codec, l.ending, piece))
  }

  lemma {:induction false} GrownOpenHolds<T>(codec: Codec<T>, l: OpenLedger<T>, piece: Piece<T>)
    requires HoldsOpen(codec, l) && piece.written <= |Line(codec, piece.row)|
    ensures HoldsOpen(codec, GrownOpen(codec, l, piece))
  {
    var all := l.pieces + [piece];
    assert all[..|all| - 1] == l.pieces && all[|all| - 1] == piece;
  }

  lemma {:induction false} HoldsOpenReads<T(!new)>(codec: Codec<T>, l: OpenLedger<T>)
    requires Sound(codec) && HoldsOpen(codec, l)
    ensures LenientRecords(codec, l.text) == if l.ending == Torn then None else Some(l.rows)
  {
    LenientIffNotTorn(codec, l.pieces);
  }
}
