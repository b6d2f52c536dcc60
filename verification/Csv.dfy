/** The CSV reader: what a file of requests loads as, and a printer in the same column order that it undoes. */
module Csv {
  import opened Types

  // ----- lines and fields

  /** The position of the first delimiter, or the length. */
  function IndexOf(s: string, d: char): (i: nat)
    ensures i <= |s| && d !in s[..i] && (i < |s| ==> s[i] == d)
  {
    if s == "" || s[0] == d then 0 else 1 + IndexOf(s[1..], d)
  }

  /** What a stream yields up to the delimiter, and what is left of it. */
  function GetLine(s: string, d: char): (r: (string, string))
    requires s != ""
    ensures |r.1| < |s|
  {
    var i := IndexOf(s, d);
    (s[..i], if i < |s| then s[i + 1..] else "")
  }

  /** All that can be got from a stream, piece by piece. */
  function Pieces(s: string, d: char): seq<string>
    decreases |s|
  {
    if s == "" then [] else [GetLine(s, d).0] + Pieces(GetLine(s, d).1, d)
  }

  function Join(pieces: seq<string>, d: char): string
    requires pieces != []
  {
    if |pieces| == 1 then pieces[0] else pieces[0] + [d] + Join(pieces[1..], d)
  }

  function Unlines(lines: seq<string>): string {
    Join(lines + [""], '\n')
  }

  predicate Without(pieces: seq<string>, d: char) {
    forall i :: 0 <= i < |pieces| ==> d !in pieces[i]
  }

  lemma {:induction false} IndexIs(s: string, d: char, k: nat)
    requires k <= |s| && (k < |s| ==> s[k] == d)
    requires forall i :: 0 <= i < k ==> s[i] != d
    ensures IndexOf(s, d) == k
  {
    if k > 0 {
      IndexIs(s[1..], d, k - 1);
    }
  }

  lemma FirstPiece(piece: string, d: char, rest: string)
    requires d !in piece
    ensures GetLine(piece + [d] + rest, d) == (piece, rest)
  {
    var s := piece + [d] + rest;
    IndexIs(s, d, |piece|);
    assert s[..|piece|] == piece && s[|piece| + 1..] == rest;
  }

  lemma OnlyPiece(piece: string, d: char)
    requires d !in piece && piece != ""
    ensures Pieces(piece, d) == [piece]
  {
    IndexIs(piece, d, |piece|);
    assert piece[..|piece|] == piece;
  }

  lemma MorePieces(piece: string, d: char, rest: string)
    requires d !in piece
    ensures Pieces(piece + [d] + rest, d) == [piece] + Pieces(rest, d)
  {
    hide GetLine;
    FirstPiece(piece, d, rest);
  }

  lemma JoinIsNotEmpty(pieces: seq<string>, d: char)
    requires |pieces| > 1
    ensures Join(pieces, d) != ""
  {
  }

  function DropEmptyLast(pieces: seq<string>): seq<string>
    requires pieces != []
  {
    if pieces[|pieces| - 1] == "" then pieces[..|pieces| - 1] else pieces
  }

  lemma DropFromTail(piece: string, rest: seq<string>)
    requires rest != []
    ensures DropEmptyLast([piece] + rest) == [piece] + DropEmptyLast(rest)
  {
  }

  /** Splitting undoes joining, up to an empty last piece. */
  lemma {:induction false} PiecesOfJoin(pieces: seq<string>, d: char)
    requires pieces != [] && Without(pieces, d)
    ensures Pieces(Join(pieces, d), d) == DropEmptyLast(pieces)
  {
    hide GetLine;
    if |pieces| == 1 {
      if pieces[0] != "" {
        OnlyPiece(pieces[0], d);
      }
    } else {
      hide Pieces, DropEmptyLast;
      var rest := pieces[1..];
      MorePieces(pieces[0], d, Join(rest, d));
      PiecesOfJoin(rest, d);
      DropFromTail(pieces[0], rest);
      assert pieces == [pieces[0]] + rest;
    }
  }

  lemma PiecesOfUnlines(lines: seq<string>)
    requires Without(lines, '\n')
    ensures Pieces(Unlines(lines), '\n') == lines
  {
    PiecesOfJoin(lines + [""], '\n');
    assert (lines + [""])[..|lines|] == lines;
  }

  lemma {:induction false} JoinWithout(pieces: seq<string>, d: char, e: char)
    requires pieces != [] && Without(pieces, e) && d != e
    ensures e !in Join(pieces, d)
  {
    if |pieces| > 1 {
      JoinWithout(pieces[1..], d, e);
    }
  }

  function Occurrences(s: string, d: char): nat {
    if s == "" then 0 else (if s[0] == d then 1 else 0) + Occurrences(s[1..], d)
  }

  lemma {:induction false} OccurrencesSplit(s: string, t: string, d: char)
    ensures Occurrences(s + t, d) == Occurrences(s, d) + Occurrences(t, d)
  {
    if s == "" {
      assert s + t == t;
    } else {
      assert (s + t)[1..] == s[1..] + t;
      OccurrencesSplit(s[1..], t, d);
    }
  }

  lemma {:induction false} NoOccurrences(s: string, d: char)
    requires d !in s
    ensures Occurrences(s, d) == 0
  {
    if s != "" {
      NoOccurrences(s[1..], d);
    }
  }

  lemma CutAt(line: string, d: char, rest: string)
    requires d !in line
    ensures Occurrences(line, d) == 0
    ensures Occurrences(line + [d] + rest, d) == 1 + Occurrences(rest, d)
  {
    NoOccurrences(line, d);
    OccurrencesSplit(line, [d] + rest, d);
    assert line + [d] + rest == line + ([d] + rest);
    assert ([d] + rest)[1..] == rest;
  }

  /** The text is the first piece alone, or that piece, the delimiter and the rest. */
  lemma Cut(s: string, d: char) returns (line: string, rest: string)
    requires s != ""
    ensures d !in line && |rest| < |s| && Pieces(s, d) == [line] + Pieces(rest, d)
    ensures s == line + [d] + rest || (s == line && rest == "")
  {
    var i := IndexOf(s, d);
    line, rest := GetLine(s, d).0, GetLine(s, d).1;
    if i < |s| {
      assert s == line + [d] + rest;
    }
  }

  predicate Unfinished(s: string, d: char) {
    s != "" && s[|s| - 1] != d
  }

  lemma LastOfCut(line: string, d: char, rest: string)
    requires d !in line
    ensures Unfinished(line + [d] + rest, d) <==> Unfinished(rest, d)
    ensures Unfinished(line, d) <==> line != ""
  {
  }

  /** There is one piece more than delimiters, unless the text ends with one: an empty last piece is dropped. */
  lemma {:induction false} PieceCount(s: string, d: char)
    ensures |Pieces(s, d)| == Occurrences(s, d) + if Unfinished(s, d) then 1 else 0
    decreases |s|
  {
    hide Occurrences, Unfinished, GetLine;
    CutAt("", d, "");
    LastOfCut("", d, "");
    if s != "" {
      var line, rest := Cut(s, d);
      hide Pieces;
      PieceCount(rest, d);
      CutAt(line, d, rest);
      LastOfCut(line, d, rest);
    }
  }

  // ----- numbers

  const TWO_TO_THE_32: nat := 0x1_0000_0000

  const TWO_TO_THE_63: int := 0x8000_0000_0000_0000

  const TWO_TO_THE_64: nat := 0x1_0000_0000_0000_0000

  predicate IsDigit(c: char) {
    '0' <= c <= '9'
  }

  predicate AllDigits(s: string) {
    forall i :: 0 <= i < |s| ==> IsDigit(s[i])
  }

  predicate IsSpace(c: char) {
    c == ' ' || 9 <= c as int <= 13
  }

  function SkipSpaces(s: string): string {
    if s != "" && IsSpace(s[0]) then SkipSpaces(s[1..]) else s
  }

  /** The digits a text starts with. */
  function DigitRun(s: string): (r: string)
    ensures AllDigits(r)
  {
    if s != "" && IsDigit(s[0]) then [s[0]] + DigitRun(s[1..]) else ""
  }

  function Decimal(ds: string): nat
    requires AllDigits(ds)
  {
    if ds == "" then 0 else Decimal(ds[..|ds| - 1]) * 10 + (ds[|ds| - 1] as int - '0' as int)
  }

  function ScanSigned(t: string): Option<(bool, nat)> {
    var negative := t != "" && t[0] == '-';
    var u := if t != "" && (t[0] == '-' || t[0] == '+') then t[1..] else t;
    if DigitRun(u) == "" then None else Some((negative, Decimal(DigitRun(u))))
  }

  /** Sign and magnitude of the number a text starts with; None if there is no number. */
  function Scan(s: string): Option<(bool, nat)> {
    ScanSigned(SkipSpaces(s))
  }

  /** A signed 64-bit number; no number and one out of range read as 0. */
  function SafeStoll(s: string): int {
    match Scan(s)
    case None => 0
    case Some((negative, m)) =>
      var v := if negative then -(m as int) else m;
      if -TWO_TO_THE_63 <= v < TWO_TO_THE_63 then v else 0
  }

  /** An unsigned 64-bit number; a minus sign is taken modulo 2^64. */
  function SafeStoull(s: string): nat {
    match Scan(s)
    case None => 0
    case Some((negative, m)) =>
      if m >= TWO_TO_THE_64 then 0 else if negative then (TWO_TO_THE_64 - m) % TWO_TO_THE_64 else m
  }

  /** Read as an unsigned 64-bit number and cut to 32 bits. */
  function SafeStoul(s: string): nat {
    SafeStoull(s) % TWO_TO_THE_32
  }

  function DigitChar(d: nat): char
    requires d < 10
  {
    ('0' as int + d) as char
  }

  function Digits(n: nat): (s: string)
    ensures AllDigits(s) && s != ""
  {
    if n < 10 then [DigitChar(n)] else Digits(n / 10) + [DigitChar(n % 10)]
  }

  function PrintInt(v: int): string {
    if v < 0 then "-" + Digits(-v) else Digits(v)
  }

  lemma {:induction false} DecimalOfDigits(n: nat)
    ensures Decimal(Digits(n)) == n
  {
    if n >= 10 {
      DecimalOfDigits(n / 10);
      assert Digits(n)[..|Digits(n)| - 1] == Digits(n / 10);
    }
  }

  lemma {:induction false} RunOfDigits(s: string)
    requires AllDigits(s)
    ensures DigitRun(s) == s
  {
    if s != "" {
      RunOfDigits(s[1..]);
    }
  }

  lemma ScanOfPrint(v: int)
    ensures Scan(PrintInt(v)) == Some((v < 0, if v < 0 then -v else v))
  {
    var n := if v < 0 then -v else v;
    RunOfDigits(Digits(n));
    DecimalOfDigits(n);
    var s := PrintInt(v);
    if v < 0 {
      assert s[1..] == Digits(n);
    } else {
      assert IsDigit(s[0]);
    }
    assert SkipSpaces(s) == s;
  }

  /** A printed number reads back exactly when it is in the range of its column. */
  lemma NumbersReadBack(n: nat, v: int)
    ensures SafeStoull(Digits(n)) == n <==> n < 0x1_0000_0000_0000_0000
    ensures SafeStoul(Digits(n)) == n <==> n < 0x1_0000_0000
    ensures SafeStoll(PrintInt(v)) == v <==> -0x8000_0000_0000_0000 <= v < 0x8000_0000_0000_0000
  {
    ScanOfPrint(n);
    ScanOfPrint(v);
  }

  // ----- how any text reads as a number

  function PowerOfTen(n: nat): nat {
    if n == 0 then 1 else 10 * PowerOfTen(n - 1)
  }

  /** Every digit times the power of ten of its place. */
  function PlaceValue(ds: string): nat
    requires AllDigits(ds)
  {
    if ds == "" then 0 else (ds[0] as int - '0' as int) * PowerOfTen(|ds| - 1) + PlaceValue(ds[1..])
  }

  lemma ShiftPlace(d: nat, power: nat, rest: nat, last: nat)
    ensures d * (10 * power) + (rest * 10 + last) == (d * power + rest) * 10 + last
  {
  }

  lemma {:induction false} PlaceValueNext(ds: string, c: char)
    requires AllDigits(ds) && IsDigit(c)
    ensures AllDigits(ds + [c])
    ensures PlaceValue(ds + [c]) == PlaceValue(ds) * 10 + (c as int - '0' as int)
  {
    assert PowerOfTen(0) == 1;
    if ds == "" {
      assert ds + [c] == [c];
    } else {
      assert (ds + [c])[1..] == ds[1..] + [c];
      PlaceValueNext(ds[1..], c);
      ShiftPlace(ds[0] as int - '0' as int, PowerOfTen(|ds| - 1), PlaceValue(ds[1..]), c as int - '0' as int);
    }
  }

  lemma {:induction false} DecimalIsPlaceValue(ds: string)
    requires AllDigits(ds)
    ensures Decimal(ds) == PlaceValue(ds)
  {
    if ds != "" {
      var n := |ds| - 1;
      DecimalIsPlaceValue(ds[..n]);
      PlaceValueNext(ds[..n], ds[n]);
      assert ds[..n] + [ds[n]] == ds;
    }
  }

  /** White space, an optional sign, digits, and any text that does not go on with a digit. */
  datatype NumberText = NumberText(spaces: string, sign: string, digits: string, tail: string) {
    predicate Valid() {
      && (forall i :: 0 <= i < |spaces| ==> spaces[i] == ' ' || 9 <= spaces[i] as int <= 13)
      && (sign == "" || sign == "+" || sign == "-")
      && (forall i :: 0 <= i < |digits| ==> '0' <= digits[i] <= '9')
      && (tail != "" ==> tail[0] < '0' || tail[0] > '9')
      && (tail != "" && sign == "" && digits == "" ==>
            tail[0] != '+' && tail[0] != '-' && tail[0] != ' ' && !(9 <= tail[0] as int <= 13))
    }

    function Text(): string {
      spaces + (sign + (digits + tail))
    }
  }

  lemma {:induction false} SkipAllSpaces(spaces: string, rest: string)
    requires forall i :: 0 <= i < |spaces| ==> IsSpace(spaces[i])
    requires rest != "" ==> !IsSpace(rest[0])
    ensures SkipSpaces(spaces + rest) == rest
  {
    if spaces == "" {
      assert spaces + rest == rest;
    } else {
      assert (spaces + rest)[1..] == spaces[1..] + rest;
      SkipAllSpaces(spaces[1..], rest);
    }
  }

  lemma {:induction false} RunIsAllDigits(digits: string, tail: string)
    requires AllDigits(digits) && (tail != "" ==> !IsDigit(tail[0]))
    ensures DigitRun(digits + tail) == digits
  {
    if digits == "" {
      assert digits + tail == tail;
    } else {
      assert (digits + tail)[1..] == digits[1..] + tail;
      RunIsAllDigits(digits[1..], tail);
    }
  }

  lemma ScanAfterSpaces(t: NumberText)
    requires t.Valid()
    ensures AllDigits(t.digits)
    ensures ScanSigned(t.sign + (t.digits + t.tail))
         == if t.digits == "" then None else Some((t.sign == "-", PlaceValue(t.digits)))
  {
    hide Decimal, DigitRun, PlaceValue;
    var u := t.digits + t.tail;
    RunIsAllDigits(t.digits, t.tail);
    DecimalIsPlaceValue(t.digits);
    if t.sign == "" {
      assert t.sign + u == u;
    } else {
      assert (t.sign + u)[1..] == u;
    }
  }

  lemma ScanOfText(t: NumberText)
    requires t.Valid()
    ensures AllDigits(t.digits)
    ensures Scan(t.Text()) == if t.digits == "" then None else Some((t.sign == "-", PlaceValue(t.digits)))
  {
    hide ScanSigned, PlaceValue;
    SkipAllSpaces(t.spaces, t.sign + (t.digits + t.tail));
    ScanAfterSpaces(t);
  }

  /** What any text reads as: its digits' value under its sign, 0 without digits or out of the column's range. */
  lemma NumberReads(t: NumberText)
    requires t.Valid()
    ensures AllDigits(t.digits)
    ensures var n: int := PlaceValue(t.digits);
            var signed := if t.sign == "-" then -n else n;
            var wrapped := if signed < 0 then 0x1_0000_0000_0000_0000 + signed else signed;
            && SafeStoll(t.Text())
               == (if -0x8000_0000_0000_0000 <= signed < 0x8000_0000_0000_0000 then signed else 0)
            && SafeStoull(t.Text()) == (if n < 0x1_0000_0000_0000_0000 then wrapped else 0)
            && SafeStoul(t.Text()) == (if n < 0x1_0000_0000_0000_0000 then wrapped % 0x1_0000_0000 else 0)
  {
    hide Scan;
    ScanOfText(t);
    assert PlaceValue("") == 0;
  }

  lemma {:induction false} RunIsPrefix(s: string)
    ensures var n := |DigitRun(s)|;
            n <= |s| && s == DigitRun(s) + s[n..] && (n < |s| ==> !IsDigit(s[n]))
  {
    if s != "" && IsDigit(s[0]) {
      RunIsPrefix(s[1..]);
      assert s == [s[0]] + s[1..];
    }
  }

  lemma {:induction false} LeadingSpaces(s: string) returns (spaces: string, rest: string)
    ensures s == spaces + rest && (forall i :: 0 <= i < |spaces| ==> IsSpace(spaces[i]))
    ensures rest != "" ==> !IsSpace(rest[0])
  {
    spaces, rest := "", s;
    if s != "" && IsSpace(s[0]) {
      spaces, rest := LeadingSpaces(s[1..]);
      spaces := [s[0]] + spaces;
    }
  }

  lemma NumberTextOf(rest: string) returns (t: NumberText)
    requires rest != "" ==> !IsSpace(rest[0])
    ensures t.Valid() && t.Text() == rest && t.spaces == ""
  {
    var signed := rest != "" && (rest[0] == '+' || rest[0] == '-');
    var sign, u := if signed then [rest[0]] else "", if signed then rest[1..] else rest;
    RunIsPrefix(u);
    t := NumberText("", sign, DigitRun(u), u[|DigitRun(u)|..]);
    hide DigitRun;
    assert rest == sign + u;
  }

  /** Every text is of that form. */
  lemma EveryTextIsNumberText(s: string) returns (t: NumberText)
    ensures t.Valid() && t.Text() == s
  {
    var spaces, rest := LeadingSpaces(s);
    t := NumberTextOf(rest);
    t := t.(spaces := spaces);
  }

  // ----- rows

  predicate IsJunk(line: string) {
    line == "" || line[0] == '#' || |Pieces(line, ',')| < 10
  }

  /** The request of a row: columns 0 to 9 and, if there is one, column 10. */
  function RequestOf(fields: seq<string>): OrderRequest
    requires |fields| >= 10
  {
    OrderRequest(
      if fields[3] == "Cancel" then CancelOrder else if fields[3] == "Modify" then ModifyOrder else NewOrder,
      SafeStoull(fields[0]),
      SafeStoull(fields[1]),
      SafeStoul(fields[2]),
      if |fields| > 10 then SafeStoul(fields[10]) else 1,
      if fields[4] == "Buy" || fields[4] == "buy" then Buy else Sell,
      if fields[5] == "Market" then Market else Limit,
      SafeStoll(fields[6]),
      SafeStoull(fields[7]),
      SafeStoull(fields[8]),
      SafeStoull(fields[9]))
  }

  /** The requests a line adds: one, or none if it is junk. */
  function Row(line: string): seq<OrderRequest> {
    if IsJunk(line) then [] else [RequestOf(Pieces(line, ','))]
  }

  function Requests(lines: seq<string>): seq<OrderRequest> {
    if lines == [] then [] else Row(lines[0]) + Requests(lines[1..])
  }

  /** What a file loads as: the first line is a header, whatever it says. */
  function Load(text: string): seq<OrderRequest> {
    var lines := Pieces(text, '\n');
    if lines == [] then [] else Requests(lines[1..])
  }

  const COLUMNS := ["req_id", "order_id", "client_id", "action", "side", "type", "price", "quantity", "visible_qty",
                    "timestamp", "symbol_id"]

  function Header(): string {
    Join(COLUMNS, ',')
  }

  function ActionName(a: OrderAction): string {
    match a
    case NewOrder => "New"
    case CancelOrder => "Cancel"
    case ModifyOrder => "Modify"
  }

  function SideName(s: Side): string {
    match s
    case Buy => "Buy"
    case Sell => "Sell"
    case NoSide => "None"
  }

  function TypeName(t: OrderType): string {
    match t
    case Limit => "Limit"
    case Market => "Market"
    case IOC => "IOC"
    case FOK => "FOK"
  }

  function PrintFields(r: OrderRequest): seq<string> {
    [Digits(r.execId), Digits(r.orderId), Digits(r.clientId), ActionName(r.action), SideName(r.side),
     TypeName(r.orderType), PrintInt(r.p), Digits(r.q), Digits(r.visibleQty), Digits(r.timestamp), Digits(r.symbolId)]
  }

  function PrintRow(r: OrderRequest): string {
    Join(PrintFields(r), ',')
  }

  function PrintRows(rs: seq<OrderRequest>): seq<string> {
    seq(|rs|, i requires 0 <= i < |rs| => PrintRow(rs[i]))
  }

  function Print(rs: seq<OrderRequest>): string {
    Unlines([Header()] + PrintRows(rs))
  }

  /** What the columns can hold. */
  predicate InRange(r: OrderRequest) {
    && r.side != NoSide
    && (r.orderType == Limit || r.orderType == Market)
    && r.execId < 0x1_0000_0000_0000_0000 && r.orderId < 0x1_0000_0000_0000_0000
    && r.clientId < 0x1_0000_0000 && r.symbolId < 0x1_0000_0000
    && -0x8000_0000_0000_0000 <= r.p < 0x8000_0000_0000_0000
    && r.q < 0x1_0000_0000_0000_0000 && r.visibleQty < 0x1_0000_0000_0000_0000 && r.timestamp < 0x1_0000_0000_0000_0000
  }

  lemma PrintedFieldsWithout(r: OrderRequest, d: char)
    requires d == ',' || d == '\n'
    ensures Without(PrintFields(r), d)
  {
  }

  lemma FieldsReadBack(r: OrderRequest)
    ensures RequestOf(PrintFields(r)) == r <==> InRange(r)
  {
    hide Digits, PrintInt, SafeStoll, SafeStoull, SafeStoul;
    NumbersReadBack(r.execId, r.p);
    NumbersReadBack(r.orderId, 0);
    NumbersReadBack(r.clientId, 0);
    NumbersReadBack(r.symbolId, 0);
    NumbersReadBack(r.q, 0);
    NumbersReadBack(r.visibleQty, 0);
    NumbersReadBack(r.timestamp, 0);
  }

  lemma FirstCharOfJoin(fields: seq<string>)
    requires |fields| > 1 && fields[0] != ""
    ensures Join(fields, ',') != "" && Join(fields, ',')[0] == fields[0][0]
  {
  }

  lemma PrintedIsNoJunk(line: string)
    requires line != "" && IsDigit(line[0]) && |Pieces(line, ',')| >= 10
    ensures !IsJunk(line)
  {
  }

  lemma RowReadsBack(r: OrderRequest)
    ensures Pieces(PrintRow(r), ',') == PrintFields(r)
    ensures !IsJunk(PrintRow(r)) && '\n' !in PrintRow(r)
  {
    hide IsJunk;
    var fields := PrintFields(r);
    PrintedFieldsWithout(r, ',');
    PrintedFieldsWithout(r, '\n');
    PiecesOfJoin(fields, ',');
    JoinWithout(fields, ',', '\n');
    FirstCharOfJoin(fields);
    PrintedIsNoJunk(PrintRow(r));
  }

  // ----- main results

  predicate AllInRange(rs: seq<OrderRequest>) {
    forall i :: 0 <= i < |rs| ==> InRange(rs[i])
  }

  lemma ConsEquality<T>(x: T, xs: seq<T>, ys: seq<T>)
    requires |xs| + 1 == |ys|
    ensures [x] + xs == ys <==> x == ys[0] && xs == ys[1..]
  {
    assert ys == [ys[0]] + ys[1..];
    assert ([x] + xs)[1..] == xs;
  }

  lemma ConsInRange(rs: seq<OrderRequest>)
    requires rs != []
    ensures AllInRange(rs) <==> InRange(rs[0]) && AllInRange(rs[1..])
  {
    hide InRange;
    assert rs == [rs[0]] + rs[1..];
  }

  lemma {:induction false} RowsReadBack(rs: seq<OrderRequest>)
    ensures |Requests(PrintRows(rs))| == |rs|
    ensures Requests(PrintRows(rs)) == rs <==> AllInRange(rs)
  {
    hide InRange, IsJunk, RequestOf, PrintRow, Pieces;
    if rs != [] {
      RowsReadBack(rs[1..]);
      RowReadsBack(rs[0]);
      FieldsReadBack(rs[0]);
      ConsInRange(rs);
      assert PrintRows(rs)[1..] == PrintRows(rs[1..]);
      ConsEquality(RequestOf(PrintFields(rs[0])), Requests(PrintRows(rs[1..])), rs);
    }
  }

  lemma LoadOfUnlines(header: string, lines: seq<string>)
    requires '\n' !in header && Without(lines, '\n')
    ensures Load(Unlines([header] + lines)) == Requests(lines)
  {
    PiecesOfUnlines([header] + lines);
    assert ([header] + lines)[1..] == lines;
  }

  lemma PrintedRowsWithout(rs: seq<OrderRequest>)
    ensures Without(PrintRows(rs), '\n')
  {
    forall i | 0 <= i < |rs| ensures '\n' !in PrintRows(rs)[i] {
      RowReadsBack(rs[i]);
    }
  }

  /** A printed list loads as itself exactly when every request fits its columns. */
  lemma RoundTrip(rs: seq<OrderRequest>)
    ensures Load(Print(rs)) == rs <==> AllInRange(rs)
  {
    PrintedRowsWithout(rs);
    JoinWithout(COLUMNS, ',', '\n');
    LoadOfUnlines(Header(), PrintRows(rs));
    RowsReadBack(rs);
  }

  function Kept(lines: seq<string>): seq<string> {
    if lines == [] then [] else (if IsJunk(lines[0]) then [] else [lines[0]]) + Kept(lines[1..])
  }

  lemma {:induction false} JunkYieldsNothing(lines: seq<string>)
    ensures Requests(Kept(lines)) == Requests(lines)
    ensures |Requests(lines)| == |Kept(lines)|
    ensures Without(lines, '\n') ==> Without(Kept(lines), '\n')
  {
    hide IsJunk, RequestOf, Pieces;
    if lines != [] {
      JunkYieldsNothing(lines[1..]);
      if IsJunk(lines[0]) {
        assert Kept(lines) == Kept(lines[1..]);
      } else {
        assert Kept(lines)[1..] == Kept(lines[1..]);
      }
    }
  }

  /** A file with blank lines, comments and short lines anywhere after the header loads as if without them. */
  lemma JunkChangesNothing(header: string, lines: seq<string>)
    requires '\n' !in header && Without(lines, '\n')
    ensures Load(Unlines([header] + lines)) == Load(Unlines([header] + Kept(lines)))
  {
    JunkYieldsNothing(lines);
    LoadOfUnlines(header, lines);
    LoadOfUnlines(header, Kept(lines));
  }

  /** Printed rows with junk strewn among them still load as the list that was printed. */
  lemma RoundTripThroughJunk(header: string, lines: seq<string>, rs: seq<OrderRequest>)
    requires '\n' !in header && Without(lines, '\n') && Kept(lines) == PrintRows(rs)
    requires AllInRange(rs)
    ensures Load(Unlines([header] + lines)) == rs
  {
    JunkYieldsNothing(lines);
    LoadOfUnlines(header, lines);
    RowsReadBack(rs);
  }

  lemma NumbersInRange(s: string)
    ensures -0x8000_0000_0000_0000 <= SafeStoll(s) < 0x8000_0000_0000_0000
    ensures SafeStoull(s) < 0x1_0000_0000_0000_0000 && SafeStoul(s) < 0x1_0000_0000
  {
    hide Scan;
  }

  lemma RequestInRange(fields: seq<string>)
    requires |fields| >= 10
    ensures InRange(RequestOf(fields))
  {
    hide SafeStoll, SafeStoull, SafeStoul;
    NumbersInRange(fields[0]);
    NumbersInRange(fields[1]);
    NumbersInRange(fields[2]);
    NumbersInRange(fields[6]);
    NumbersInRange(fields[7]);
    NumbersInRange(fields[8]);
    NumbersInRange(fields[9]);
    if |fields| > 10 {
      NumbersInRange(fields[10]);
    }
  }

  lemma {:induction false} RequestsInRange(lines: seq<string>)
    ensures AllInRange(Requests(lines))
  {
    hide InRange, RequestOf;
    if lines != [] {
      RequestsInRange(lines[1..]);
      if !IsJunk(lines[0]) {
        RequestInRange(Pieces(lines[0], ','));
      }
    }
  }

  /** Whatever a file holds, what it loads as can be printed and loaded again. */
  lemma LoadedPrintsBack(text: string)
    ensures Load(Print(Load(text))) == Load(text)
  {
    var lines := Pieces(text, '\n');
    RequestsInRange(if lines == [] then [] else lines[1..]);
    RoundTrip(Load(text));
  }

  /**
   A row is skipped exactly if it has fewer than ten columns, or ten of which the last is empty, which splitting
   drops, or if it starts like a comment.
   */
  lemma JunkIff(columns: seq<string>)
    requires columns != [] && Without(columns, ',')
    ensures IsJunk(Join(columns, ',')) <==>
            |columns| < 10 || (|columns| == 10 && columns[9] == "") || Join(columns, ',')[..1] == "#"
  {
    var line := Join(columns, ',');
    PiecesOfJoin(columns, ',');
    if |columns| > 1 {
      JoinIsNotEmpty(columns, ',');
    }
    hide Join, Pieces, Without;
    if line != "" {
      assert line[..1] == [line[0]];
    }
  }

  /** The request has what the first ten columns say. */
  predicate HasColumns(r: OrderRequest, columns: seq<string>)
    requires |columns| >= 10
  {
    && (r.action == CancelOrder <==> columns[3] == "Cancel")
    && (r.action == ModifyOrder <==> columns[3] == "Modify")
    && r.side == (if columns[4] == "Buy" || columns[4] == "buy" then Buy else Sell)
    && r.orderType == (if columns[5] == "Market" then Market else Limit)
    && r.execId == SafeStoull(columns[0]) && r.orderId == SafeStoull(columns[1])
    && r.clientId == SafeStoul(columns[2])
    && r.p == SafeStoll(columns[6]) && r.q == SafeStoull(columns[7])
    && r.visibleQty == SafeStoull(columns[8]) && r.timestamp == SafeStoull(columns[9])
  }

  lemma RequestHasColumns(fields: seq<string>, columns: seq<string>)
    requires |fields| >= 10 && |columns| >= 10 && fields[..10] == columns[..10]
    ensures HasColumns(RequestOf(fields), columns)
    ensures RequestOf(fields).symbolId == if |fields| == 10 then 1 else SafeStoul(fields[10])
  {
    hide SafeStoll, SafeStoull, SafeStoul;
    assert forall i :: 0 <= i < 10 ==> fields[i] == fields[..10][i] == columns[i];
  }

  /** What a row of at least ten columns loads as; a missing or empty last symbol column means symbol 1. */
  lemma RowLoadsAs(columns: seq<string>)
    requires Without(columns, ',') && (|columns| > 10 || (|columns| == 10 && columns[9] != ""))
    requires Join(columns, ',')[..1] != "#"
    ensures |Row(Join(columns, ','))| == 1
    ensures HasColumns(Row(Join(columns, ','))[0], columns)
    ensures Row(Join(columns, ','))[0].symbolId
         == if |columns| == 10 || columns[10..] == [""] then 1 else SafeStoul(columns[10])
  {
    JunkIff(columns);
    PiecesOfJoin(columns, ',');
    hide Join, Pieces, Without, IsJunk, HasColumns, RequestOf, SafeStoul;
    RequestHasColumns(DropEmptyLast(columns), columns);
  }

  // ----- the reader

  lemma NextLine(rest: string, done: seq<OrderRequest>)
    requires rest != ""
    ensures var (line, next) := GetLine(rest, '\n');
            done + Requests(Pieces(rest, '\n')) == done + Row(line) + Requests(Pieces(next, '\n'))
  {
    hide Row, GetLine;
    var line, next := GetLine(rest, '\n').0, GetLine(rest, '\n').1;
    assert Pieces(rest, '\n')[0] == line && Pieces(rest, '\n')[1..] == Pieces(next, '\n');
    assert done + (Row(line) + Requests(Pieces(next, '\n'))) == done + Row(line) + Requests(Pieces(next, '\n'));
  }

  class CSVDataReader {
    var requests: seq<OrderRequest>

    constructor ()
      ensures requests == []
    {
      requests := [];
    }

    method Clear()
      modifies this
      ensures requests == []
    {
      requests := [];
    }

    method SplitFields(line: string) returns (fields: seq<string>)
      ensures fields == Pieces(line, ',')
    {
      fields := [];
      var ss := line;
      while ss != ""
        invariant fields + Pieces(ss, ',') == Pieces(line, ',')
        decreases |ss|
      {
        var (field, rest) := GetLine(ss, ',');
        fields, ss := fields + [field], rest;
      }
    }

    method ParseRow(fields: seq<string>) returns (r: OrderRequest)
      requires |fields| >= 10
      ensures r == RequestOf(fields)
    {
      var action := NewOrder;
      if fields[3] == "Cancel" {
        action := CancelOrder;
      } else if fields[3] == "Modify" {
        action := ModifyOrder;
      }
      var side := if fields[4] == "Buy" || fields[4] == "buy" then Buy else Sell;
      var orderType := Limit;
      if fields[5] == "Market" {
        orderType := Market;
      }
      var symbolId := 1;
      if |fields| > 10 {
        symbolId := SafeStoul(fields[10]);
      }
      r := OrderRequest(action, SafeStoull(fields[0]), SafeStoull(fields[1]), SafeStoul(fields[2]), symbolId, side,
                        orderType, SafeStoll(fields[6]), SafeStoull(fields[7]), SafeStoull(fields[8]),
                        SafeStoull(fields[9]));
    }

    /** One pass of the reading loop. */
    method LoadLine(line: string)
      modifies this
      ensures requests == old(requests) + Row(line)
    {
      if line == "" || line[0] == '#' {
        return;
      }
      var fields := SplitFields(line);
      if |fields| < 10 {
        return;
      }
      var request := ParseRow(fields);
      requests := requests + [request];
    }

    /** `file` is the content of the file, None if it cannot be opened. */
    method LoadFromCSV(file: Option<string>) returns (ok: bool)
      modifies this
      ensures ok == file.Some?
      ensures requests == if file.Some? then Load(file.value) else old(requests)
    {
      hide Row, GetLine;
      if file.None? {
        return false;
      }
      Clear();
      var rest := file.value;
      if rest != "" {
        rest := GetLine(rest, '\n').1;
      }
      assert Load(file.value) == Requests(Pieces(rest, '\n'));
      while rest != ""
        invariant requests + Requests(Pieces(rest, '\n')) == Load(file.value)
        decreases |rest|
      {
        var (line, next) := GetLine(rest, '\n');
        NextLine(rest, requests);
        LoadLine(line);
        rest := next;
      }
      return true;
    }
  }
}
