/** Comma-separated settings: broker and cache addresses. */
module Csv {

  /** White space as Unicode defines it. */
  predicate IsSpace(c: char)
  {
    var n := c as int;
    || 0x09 <= n <= 0x0D || n == 0x20 || n == 0x85 || n == 0xA0 || n == 0x1680
    || 0x2000 <= n <= 0x200A || n == 0x2028 || n == 0x2029 || n == 0x202F || n == 0x205F || n == 0x3000
  }

  function TrimLeft(s: string): string
  {
    if s != "" && IsSpace(s[0]) then TrimLeft(s[1..]) else s
  }

  function TrimRight(s: string): string
  {
    if s != "" && IsSpace(s[|s| - 1]) then TrimRight(s[..|s| - 1]) else s
  }

  function Trim(s: string): string { TrimRight(TrimLeft(s)) }

  /** One more character in front: a comma starts a new piece, any other joins the first one. */
  function InFront(c: char, parts: seq<string>): (r: seq<string>)
    requires parts != []
    ensures r != []
  {
    if c == ',' then [""] + parts else [[c] + parts[0]] + parts[1..]
  }

  /** All the pieces between commas, empty ones included; the empty string has one piece. */
  function Split(s: string): (parts: seq<string>)
    ensures parts != []
  {
    if s == "" then [""] else InFront(s[0], Split(s[1..]))
  }

  function NonBlank(parts: seq<string>): seq<string>
  {
    if parts == [] then [] else
      var sofar := NonBlank(parts[..|parts| - 1]);
      var trimmed := Trim(parts[|parts| - 1]);
      if trimmed != "" then sofar + [trimmed] else sofar
  }

  function Items(s: string): seq<string> { NonBlank(Split(s)) }

  method SplitCSV(s: string) returns (result: seq<string>)
    ensures result == Items(s)
  {
    result := [];
    var parts := Split(s);
    for i := 0 to |parts|
      invariant result == NonBlank(parts[..i])
    {
      assert parts[..i + 1][..i] == parts[..i];
      var trimmed := Trim(parts[i]);
      if trimmed != "" {
        result := result + [trimmed];
      }
    }
    assert parts[..|parts|] == parts;
  }

  // ---- What trimming does -----------------------------------------------------------------------

  ghost predicate Trimmed(s: string)
  {
    s != "" ==> !IsSpace(s[0]) && !IsSpace(s[|s| - 1])
  }

  ghost predicate AllSpace(s: string) { forall i | 0 <= i < |s| :: IsSpace(s[i]) }

  /** Trimming removes exactly the white space around the text. */
  lemma TrimTakesTheMiddle(s: string) returns (before: string, after: string)
    ensures s == before + Trim(s) + after && AllSpace(before) && AllSpace(after) && Trimmed(Trim(s))
  {
    before := LeftPart(s);
    var rest := TrimLeft(s);
    after := RightPart(rest);
    assert s == before + (Trim(s) + after);
    if Trim(s) != "" {
      assert rest[0] == Trim(s)[0];
    }
  }

  lemma {:induction false} LeftPart(s: string) returns (before: string)
    ensures s == before + TrimLeft(s) && AllSpace(before)
    ensures TrimLeft(s) != "" ==> !IsSpace(TrimLeft(s)[0])
  {
    before := "";
    if s != "" && IsSpace(s[0]) {
      before := LeftPart(s[1..]);
      before := [s[0]] + before;
      assert s == [s[0]] + s[1..];
    }
  }

  lemma {:induction false} RightPart(s: string) returns (after: string)
    ensures s == TrimRight(s) + after && AllSpace(after)
    ensures TrimRight(s) != "" ==> !IsSpace(TrimRight(s)[|TrimRight(s)| - 1])
  {
    after := "";
    if s != "" && IsSpace(s[|s| - 1]) {
      after := RightPart(s[..|s| - 1]);
      after := after + [s[|s| - 1]];
      assert s == s[..|s| - 1] + [s[|s| - 1]];
    }
  }

  // ---- Laws of the parser -------------------------------------------------------------------------

  ghost predicate IsItem(s: string) { s != "" && Trimmed(s) && ',' !in s }

  lemma InFrontAppend(c: char, p: seq<string>, q: seq<string>)
    requires p != []
    ensures InFront(c, p + q) == InFront(c, p) + q
  {
    assert (p + q)[0] == p[0] && (p + q)[1..] == p[1..] + q;
  }

  lemma {:induction false} SplitAtComma(a: string, b: string)
    ensures Split(a + "," + b) == Split(a) + Split(b)
  {
    var s := a + "," + b;
    if a == "" {
      assert s[0] == ',' && s[1..] == b;
    } else {
      SplitAtComma(a[1..], b);
      assert s[0] == a[0] && s[1..] == a[1..] + "," + b;
      InFrontAppend(a[0], Split(a[1..]), Split(b));
    }
  }

  lemma {:induction false} SplitHasNoCommas(s: string)
    ensures forall i | 0 <= i < |Split(s)| :: ',' !in Split(s)[i]
  {
    if s != "" { SplitHasNoCommas(s[1..]); }
  }

  lemma {:induction false} SplitCommaFree(s: string)
    requires ',' !in s
    ensures Split(s) == [s]
  {
    if s != "" {
      SplitCommaFree(s[1..]);
      assert s == [s[0]] + s[1..];
    }
  }

  lemma {:induction false} NonBlankAppend(p: seq<string>, q: seq<string>)
    ensures NonBlank(p + q) == NonBlank(p) + NonBlank(q)
  {
    if q == [] {
      assert p + q == p;
    } else {
      NonBlankAppend(p, q[..|q| - 1]);
      assert (p + q)[..|p + q| - 1] == p + q[..|q| - 1];
    }
  }

  /** Parsing distributes over the comma. */
  lemma CommaSeparates(a: string, b: string)
    ensures Items(a + "," + b) == Items(a) + Items(b)
  {
    SplitAtComma(a, b);
    NonBlankAppend(Split(a), Split(b));
  }

  /** Without a comma there is one item, the trimmed text, or none if that is blank. */
  lemma OnePiece(s: string)
    requires ',' !in s
    ensures Items(s) == if Trim(s) == "" then [] else [Trim(s)]
  {
    SplitCommaFree(s);
    assert [s][..|[s]| - 1] == [];
    assert NonBlank([s][..|[s]| - 1]) == [];
  }

  lemma TrimmedPiece(s: string)
    requires ',' !in s
    ensures ',' !in Trim(s) && Trimmed(Trim(s))
  {
    var before, after := TrimTakesTheMiddle(s);
    assert forall c | c in Trim(s) :: c in before + Trim(s) + after;
  }

  lemma {:induction false} NonBlankItems(parts: seq<string>)
    requires forall i | 0 <= i < |parts| :: ',' !in parts[i]
    ensures forall i | 0 <= i < |NonBlank(parts)| :: IsItem(NonBlank(parts)[i])
  {
    if parts != [] {
      NonBlankItems(parts[..|parts| - 1]);
      TrimmedPiece(parts[|parts| - 1]);
    }
  }

  /** Every item is non-empty, trimmed and free of commas. */
  lemma ItemsAreItems(s: string)
    ensures forall i | 0 <= i < |Items(s)| :: IsItem(Items(s)[i])
  {
    SplitHasNoCommas(s);
    NonBlankItems(Split(s));
  }

  function Join(items: seq<string>): string
  {
    if items == [] then "" else if |items| == 1 then items[0] else items[0] + "," + Join(items[1..])
  }

  lemma TrimItem(s: string)
    requires Trimmed(s)
    ensures Trim(s) == s
  {}

  /** Joining items and parsing gives them back. */
  lemma {:induction false} JoinThenSplit(items: seq<string>)
    requires forall i | 0 <= i < |items| :: IsItem(items[i])
    ensures Items(Join(items)) == items
  {
    if items == [] {
      OnePiece("");
    } else {
      TrimItem(items[0]);
      OnePiece(items[0]);
      if |items| > 1 {
        CommaSeparates(items[0], Join(items[1..]));
        JoinThenSplit(items[1..]);
      }
    }
  }

  /** Hence parsing is idempotent through its canonical form. */
  lemma CanonicalForm(s: string)
    ensures Items(Join(Items(s))) == Items(s)
  {
    ItemsAreItems(s);
    JoinThenSplit(Items(s));
  }

  // ---- White space around the items -----------------------------------------------------------------

  /** The code points that Unicode calls white space. */
  const WHITE: set<int> := {
    0x09, 0x0A, 0x0B, 0x0C, 0x0D, 0x20, 0x85, 0xA0, 0x1680, 0x2000, 0x2001, 0x2002, 0x2003, 0x2004, 0x2005, 0x2006,
    0x2007, 0x2008, 0x2009, 0x200A, 0x2028, 0x2029, 0x202F, 0x205F, 0x3000}

  predicate Padding(s: string) { forall i | 0 <= i < |s| :: s[i] as int in WHITE }

  /** Text between two commas: an item, or nothing, with white space around it. */
  datatype Piece = Piece(left: string, item: string, right: string) {
    function Text(): string { left + item + right }
    ghost predicate Valid() { Padding(left) && Padding(right) && (item == "" || IsItem(item)) }
  }

  function Texts(ps: seq<Piece>): seq<string>
  {
    if ps == [] then [] else [ps[0].Text()] + Texts(ps[1..])
  }

  function ItemsOf(ps: seq<Piece>): seq<string>
  {
    if ps == [] then [] else (if ps[0].item == "" then [] else [ps[0].item]) + ItemsOf(ps[1..])
  }

  lemma {:induction false} PaddedOnTheLeft(pad: string, s: string)
    requires Padding(pad) && (s == "" || !IsSpace(s[0]))
    ensures TrimLeft(pad + s) == s
  {
    if pad == "" {
      assert pad + s == s;
    } else {
      assert pad[0] as int in WHITE && (pad + s)[1..] == pad[1..] + s;
      PaddedOnTheLeft(pad[1..], s);
    }
  }

  lemma {:induction false} PaddedOnTheRight(s: string, pad: string)
    requires Padding(pad) && (s == "" || !IsSpace(s[|s| - 1]))
    ensures TrimRight(s + pad) == s
  {
    if pad == "" {
      assert s + pad == s;
    } else {
      assert pad[|pad| - 1] as int in WHITE && (s + pad)[..|s + pad| - 1] == s + pad[..|pad| - 1];
      PaddedOnTheRight(s, pad[..|pad| - 1]);
    }
  }

  lemma PaddedItem(left: string, item: string, right: string)
    requires Padding(left) && Padding(right) && IsItem(item)
    ensures Trim(left + item + right) == item
  {
    assert left + item + right == left + (item + right) && (item + right)[0] == item[0];
    PaddedOnTheLeft(left, item + right);
    PaddedOnTheRight(item, right);
  }

  lemma PaddedNothing(left: string, right: string)
    requires Padding(left) && Padding(right)
    ensures Trim(left + "" + right) == ""
  {
    assert left + "" + right == (left + right) + "";
    PaddedOnTheLeft(left + right, "");
  }

  lemma NoCommaInside(p: Piece)
    requires p.Valid()
    ensures ',' !in p.Text()
  {
    assert ',' !in p.left && ',' !in p.right && ',' !in p.item;
  }

  lemma PieceIsItsItem(p: Piece)
    requires p.Valid()
    ensures Items(p.Text()) == if p.item == "" then [] else [p.item]
  {
    NoCommaInside(p);
    OnePiece(p.Text());
    if p.item == "" { PaddedNothing(p.left, p.right); } else { PaddedItem(p.left, p.item, p.right); }
  }

  /** However the items are padded with white space, and with any blank pieces between them, joining the pieces
      with commas and parsing gives exactly the items. */
  lemma {:induction false} PaddedJoinThenSplit(ps: seq<Piece>)
    requires forall i | 0 <= i < |ps| :: ps[i].Valid()
    ensures Items(Join(Texts(ps))) == ItemsOf(ps)
  {
    if ps == [] {
      OnePiece("");
    } else {
      PieceIsItsItem(ps[0]);
      if |ps| > 1 {
        CommaSeparates(ps[0].Text(), Join(Texts(ps[1..])));
        PaddedJoinThenSplit(ps[1..]);
        assert Texts(ps)[1..] == Texts(ps[1..]);
      } else {
        assert ps[1..] == [] && Texts(ps) == [ps[0].Text()];
      }
    }
  }
}
