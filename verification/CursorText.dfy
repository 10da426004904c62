/** The text form of a history cursor, and the history followed through it. */
module CursorText {
  import opened Prelude
  import opened Tables
  import opened Pagination
  import Hex

  // ---- Decimal numbers ------------------------------------------------------------------

  function DecimalDigit(c: char): (d: Option<nat>)
    ensures d.Some? ==> d.value < 10
  {
    if '0' <= c <= '9' then Some(c as int - '0' as int) else None
  }

  /** FormatUint(n, 10). */
  function FormatUint(n: nat): (s: string)
    ensures s != ""
  {
    var digit := ['0' + (n % 10) as char];
    if n < 10 then digit else FormatUint(n / 10) + digit
  }

  /** The number a string of digits denotes; None when another character occurs. */
  function DigitsValue(s: string): Option<nat> {
    if s == "" then Some(0)
    else
      var rest :- DigitsValue(s[..|s| - 1]);
      var d :- DecimalDigit(s[|s| - 1]);
      Some(10 * rest + d)
  }

  /** ParseUint(s, 10, bits): digits only, at least one, and the value must fit. */
  function ParseUint(s: string, bound: nat): Option<nat> {
    if s == "" then None
    else
      var v :- DigitsValue(s);
      if v < bound then Some(v) else None
  }

  type Index32 = x: int | -0x8000_0000 <= x < 0x8000_0000

  /** ParseInt(s, 10, 32): an optional sign, then digits. */
  function ParseInt32(s: string): Option<Index32> {
    if s == "" then None
    else if s[0] == '-' then
      var v :- ParseUint(s[1..], TWO_32);
      var i: int := 0 - v;
      if v > 0x8000_0000 then None else Some(i)
    else
      var v :- ParseUint(if s[0] == '+' then s[1..] else s, TWO_32);
      if v >= 0x8000_0000 then None else Some(v)
  }

  function Itoa(i: int): string {
    if i < 0 then "-" + FormatUint(-i) else FormatUint(i)
  }

  lemma {:induction false} DigitsOfFormat(n: nat)
    ensures DigitsValue(FormatUint(n)) == Some(n)
    ensures forall c <- FormatUint(n) :: '0' <= c <= '9'
  {
    var digit := '0' + (n % 10) as char;
    assert DecimalDigit(digit) == Some(n % 10);
    var s := FormatUint(n);
    if n < 10 {
      assert s[..0] == "";
    } else {
      DigitsOfFormat(n / 10);
      assert s[..|s| - 1] == FormatUint(n / 10) && s[|s| - 1] == digit;
    }
  }

  /** A printed unsigned number is read back whenever it is below the bound. */
  lemma {:induction false} ParseFormatUint(n: nat, bound: nat)
    ensures ParseUint(FormatUint(n), bound) == if n < bound then Some(n) else None
  {
    DigitsOfFormat(n);
  }

  lemma {:induction false} ParseUnsigned(n: nat)
    ensures ParseInt32(FormatUint(n)) == if n < 0x8000_0000 then Some(n) else None
  {
    DigitsOfFormat(n);
    ParseFormatUint(n, TWO_32);
    hide FormatUint, ParseUint, DigitsValue;
    assert FormatUint(n)[0] in FormatUint(n);
  }

  lemma {:induction false} ParseNegative(n: nat)
    ensures ParseInt32("-" + FormatUint(n)) == if n <= 0x8000_0000 then Some(0 - n) else None
  {
    ParseFormatUint(n, TWO_32);
    hide FormatUint, ParseUint, DigitsValue;
    assert ("-" + FormatUint(n))[1..] == FormatUint(n);
  }

  /** A printed integer is read back exactly when it fits 32 bits. */
  lemma {:induction false} ParseItoa(i: int)
    ensures ParseInt32(Itoa(i)) == if -0x8000_0000 <= i < 0x8000_0000 then Some(i) else None
  {
    hide ParseInt32, FormatUint;
    if i < 0 {
      ParseNegative(-i);
    } else {
      ParseUnsigned(i);
    }
  }

  // ---- Splitting at colons --------------------------------------------------------------

  /** What stands before and after the first colon. */
  function Cut(s: string): Option<(string, string)> {
    if s == "" then None
    else if s[0] == ':' then Some(("", s[1..]))
    else
      var rest :- Cut(s[1..]);
      Some(([s[0]] + rest.0, rest.1))
  }

  lemma {:induction false} CutJoined(a: string, b: string)
    requires ':' !in a
    ensures Cut(a + ":" + b) == Some((a, b))
  {
    var s := a + ":" + b;
    if a == "" {
      assert s[1..] == b;
    } else {
      CutJoined(a[1..], b);
      assert s[1..] == a[1..] + ":" + b;
      assert [a[0]] + a[1..] == a;
    }
  }

  // ---- Cursors ----------------------------------------------------------------------------

  /** The handler's next_cursor. */
  function Print(c: Cursor): string {
    FormatUint(c.block) + ":" + Hex.Encode(c.txHash) + ":" + Itoa(c.txIndex)
  }

  /** SplitN at the first two colons; each part must parse. */
  function Parse(s: string): Option<Cursor> {
    var first :- Cut(s);
    var second :- Cut(first.1);
    var block :- ParseUint(first.0, TWO_64);
    var hash :- Hex.Decode(second.0);
    var index :- ParseInt32(second.1);
    Some(Cursor(block, hash, index))
  }

  /** A position that the parser's integer widths can hold. */
  predicate Representable(c: Cursor) {
    c.block < TWO_64 && -0x8000_0000 <= c.txIndex < 0x8000_0000
  }

  /** Printing then parsing is the identity exactly on the representable cursors; any
      other printed cursor is rejected. */
  lemma {:induction false} ParsePrint(c: Cursor)
    ensures Parse(Print(c)) == if Representable(c) then Some(c) else None
  {
    var a, h, i := FormatUint(c.block), Hex.Encode(c.txHash), Itoa(c.txIndex);
    DigitsOfFormat(c.block);
    Hex.DecodeEncode(c.txHash);
    assert Print(c) == a + ":" + (h + ":" + i);
    CutJoined(a, h + ":" + i);
    CutJoined(h, i);
    ParseFormatUint(c.block, TWO_64);
    ParseItoa(c.txIndex);
    hide FormatUint, Hex.Encode, Itoa, ParseUint, ParseInt32, Hex.Decode, Cut;
  }

  /** Whatever text the parser accepts, the cursor it yields prints to a text that means
      the same: the printed form is canonical. */
  lemma {:induction false} AcceptedIsRepresentable(s: string)
    requires Parse(s).Some?
    ensures Representable(Parse(s).value)
    ensures Parse(Print(Parse(s).value)) == Parse(s)
  {
    ParsePrint(Parse(s).value);
  }

  lemma {:induction false} DigitsPad(s: string)
    ensures DigitsValue("0" + s) == DigitsValue(s)
  {
    var padded := "0" + s;
    if s == "" {
      assert padded[..0] == "" && padded[0] == '0';
    } else {
      DigitsPad(s[..|s| - 1]);
      assert padded[..|padded| - 1] == "0" + s[..|s| - 1] && padded[|padded| - 1] == s[|s| - 1];
    }
  }

  /** Every cursor is accepted under other texts than its printed one: a leading zero does
      not matter. */
  lemma {:induction false} PrintedTextIsNotUnique(c: Cursor)
    requires Representable(c)
    ensures Parse("0" + Print(c)) == Some(c)
  {
    var a, h, i := FormatUint(c.block), Hex.Encode(c.txHash), Itoa(c.txIndex);
    DigitsPad(a);
    DigitsOfFormat(c.block);
    Hex.DecodeEncode(c.txHash);
    assert "0" + Print(c) == ("0" + a) + ":" + (h + ":" + i);
    CutJoined("0" + a, h + ":" + i);
    CutJoined(h, i);
    ParseItoa(c.txIndex);
    hide FormatUint, Hex.Encode, Itoa, ParseInt32, Hex.Decode, Cut, DigitsValue;
  }

  // ---- Following the printed cursors ------------------------------------------------------

  datatype Answer = Rows(keys: seq<UtxoKey>, nextCursor: string) | BadRequest | Panic

  /** The cursor a request starts from. */
  function StartOf(before: string): Option<Cursor> {
    if before == "" then None else Parse(before)
  }

  /** One request: an empty `before` means no cursor, an empty nextCursor means no more
      pages. */
  ghost function Respond(keys: set<UtxoKey>, before: string, limit: int): Answer {
    if before != "" && Parse(before).None? then BadRequest
    else
      match HistoryReply(keys, StartOf(before), limit)
      case Crash => Panic
      case Items(rows, None) => Rows(rows, "")
      case Items(rows, Some(next)) => Rows(rows, Print(next))
  }

  /** What the key columns can hold. */
  ghost predicate KeysFit(keys: set<UtxoKey>) {
    forall k | k in keys :: Representable(Position(k))
  }

  /** A client that repeats its request with the previous answer's cursor. */
  ghost function Follow(keys: set<UtxoKey>, before: string, limit: int, requests: nat): Option<seq<UtxoKey>>
    decreases requests
  {
    if requests == 0 then None
    else
      match Respond(keys, before, limit)
      case BadRequest => None
      case Panic => None
      case Rows(rows, next) =>
        if next == "" then Some(rows)
        else
          var rest :- Follow(keys, next, limit, requests - 1);
          Some(rows + rest)
  }

  /** A client reading page by page receives the whole history, each row once and in
      order, within one request more than there are rows. */
  lemma {:induction false} FollowingIsExact(keys: set<UtxoKey>, limit: int)
    requires KeysFit(keys) && 1 <= limit <= 200
    ensures Follow(keys, "", limit, |keys| + 1) == Some(InOrder(keys))
  {
    FollowFrom(keys, "", limit, |keys| + 1);
    CrawlIsExact(keys, None, limit);
  }

  /** One request in terms of positions: it answers the next rows, and its printed cursor
      stands for what is left. */
  lemma {:induction false} RespondMeaning(keys: set<UtxoKey>, before: string, limit: int)
    requires KeysFit(keys) && 1 <= limit <= 200
    requires before == "" || Parse(before).Some?
    ensures var reply := Respond(keys, before, limit);
            && reply.Rows?
            && (reply.nextCursor == "" ==> Crawl(keys, StartOf(before), limit) == Some(reply.keys))
            && (reply.nextCursor != "" ==>
                  && Parse(reply.nextCursor).Some?
                  && Below(keys, StartOf(reply.nextCursor)) < Below(keys, StartOf(before))
                  && Crawl(keys, StartOf(reply.nextCursor), limit).Some?
                  && Crawl(keys, StartOf(before), limit)
                    == Some(reply.keys + Crawl(keys, StartOf(reply.nextCursor), limit).value))
  {
    var from := StartOf(before);
    CrawlIsExact(keys, from, limit);
    PageMeaning(Below(keys, from), limit);
    var reply := HistoryReply(keys, from, limit);
    assert Clamp(limit) == limit;
    if reply.Items? && reply.next.Some? {
      var next := reply.next.value;
      var last := reply.keys[|reply.keys| - 1];
      NextIsSmaller(keys, from, limit);
      assert last in Below(keys, from);
      assert Representable(Position(last));
      ParsePrint(next);
      PrintIsNotEmpty(next);
      CrawlIsExact(keys, Some(next), limit);
    }
    hide Parse, Print, Representable, Older, Less, Page, FormatUint;
  }

  lemma {:induction false} FollowFrom(keys: set<UtxoKey>, before: string, limit: int, requests: nat)
    requires KeysFit(keys) && 1 <= limit <= 200
    requires before == "" || Parse(before).Some?
    requires requests > |Below(keys, StartOf(before))|
    ensures Follow(keys, before, limit, requests) == Crawl(keys, StartOf(before), limit)
    decreases requests
  {
    hide Respond, Crawl, Below, StartOf, Parse, KeysFit;
    RespondMeaning(keys, before, limit);
    var reply := Respond(keys, before, limit);
    if reply.nextCursor != "" {
      SmallerSet(Below(keys, StartOf(reply.nextCursor)), Below(keys, StartOf(before)));
      FollowFrom(keys, reply.nextCursor, limit, requests - 1);
    }
  }

  lemma {:induction false} PrintIsNotEmpty(c: Cursor)
    ensures Print(c) != ""
  {}
}
