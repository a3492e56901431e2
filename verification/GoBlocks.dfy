/** Finding brace blocks in Go source: braces inside string literals do not count. */
module GoBlocks {
  import opened Options

  // ----- the scanner -----

  datatype Scan = Scan(depth: int, inString: bool, escaped: bool)

  const OUTSIDE := Scan(0, false, false)

  /** The scan ends at this character: a closing brace that brings the depth to zero. */
  predicate Ends(s: Scan, c: char) {
    !s.inString && c == '}' && s.depth == 1
  }

  function Advance(s: Scan, c: char): Scan {
    if s.inString then
      if s.escaped then s.(escaped := false)
      else if c == '\\' then s.(escaped := true)
      else if c == '"' then s.(inString := false)
      else s
    else if c == '"' then s.(inString := true)
    else if c == '{' then s.(depth := s.depth + 1)
    else if c == '}' then s.(depth := s.depth - 1)
    else s
  }

  /** Where the scan ends, from position i on. */
  function Close(text: string, i: nat, s: Scan): (r: Option<nat>)
    requires i <= |text|
    ensures r.Some? ==> i <= r.value < |text|
    decreases |text| - i
  {
    if i == |text| then None
    else if Ends(s, text[i]) then Some(i)
    else Close(text, i + 1, Advance(s, text[i]))
  }

  /** A block and the position behind it. */
  datatype Block = Block(body: string, end: nat)

  function BlockAt(text: string, start: nat): (r: Option<Block>)
    requires start <= |text|
    ensures r.Some? ==> start < r.value.end <= |text|
  {
    var k := Close(text, start, OUTSIDE);
    if k.None? then None
    else
      assert start < k.value;
      Some(Block(text[start + 1..k.value], k.value + 1))
  }

  /** `balanced`; None where it raises. */
  method Balanced(text: string, start: nat) returns (r: Option<Block>)
    requires start <= |text|
    ensures r == BlockAt(text, start)
  {
    var depth, inString, escaped := 0, false, false;
    for index := start to |text|
      invariant depth == 1 ==> start < index
      invariant Close(text, start, OUTSIDE) == Close(text, index, Scan(depth, inString, escaped))
    {
      var c := text[index];
      if inString {
        if escaped {
          escaped := false;
        } else if c == '\\' {
          escaped := true;
        } else if c == '"' {
          inString := false;
        }
      } else if c == '"' {
        inString := true;
      } else if c == '{' {
        depth := depth + 1;
      } else if c == '}' {
        depth := depth - 1;
        if depth == 0 {
          return Some(Block(text[start + 1..index], index + 1));
        }
      }
    }
    return None;
  }

  /** `find("{", from)`. */
  function FindBrace(text: string, from: nat): (r: Option<nat>)
    requires from <= |text|
    ensures r.Some? ==> from <= r.value < |text| && text[r.value] == '{'
    ensures r.None? ==> forall i :: from <= i < |text| ==> text[i] != '{'
    decreases |text| - from
  {
    if from == |text| then None
    else if text[from] == '{' then Some(from)
    else FindBrace(text, from + 1)
  }

  /** The bodies of the blocks from a cursor on. */
  function ItemsFrom(text: string, cursor: nat): Option<seq<string>>
    requires cursor <= |text|
    decreases |text| - cursor
  {
    var start := FindBrace(text, cursor);
    if start.None? then Some([])
    else
      var b := BlockAt(text, start.value);
      if b.None? then None
      else
        var more := ItemsFrom(text, b.value.end);
        if more.None? then None else Some([b.value.body] + more.value)
  }

  function Prepend(items: seq<string>, more: Option<seq<string>>): Option<seq<string>> {
    if more.None? then None else Some(items + more.value)
  }

  /** The cursor loop over the specs of one gate. */
  method Items(text: string) returns (r: Option<seq<string>>)
    ensures r == ItemsFrom(text, 0)
  {
    var items: seq<string> := [];
    var cursor := 0;
    PrependNone(ItemsFrom(text, 0));
    while true
      invariant cursor <= |text|
      invariant ItemsFrom(text, 0) == Prepend(items, ItemsFrom(text, cursor))
      decreases |text| - cursor
    {
      var start := FindBrace(text, cursor);
      if start.None? {
        assert items + [] == items;
        return Some(items);
      }
      var b := Balanced(text, start.value);
      if b.None? {
        return None;
      }
      PrependMore(items, b.value.body, ItemsFrom(text, b.value.end));
      items := items + [b.value.body];
      cursor := b.value.end;
    }
  }

  lemma PrependNone(more: Option<seq<string>>)
    ensures Prepend([], more) == more
  {
    if more.Some? {
      assert [] + more.value == more.value;
    }
  }

  lemma PrependMore(items: seq<string>, body: string, more: Option<seq<string>>)
    ensures Prepend(items, Prepend([body], more)) == Prepend(items + [body], more)
  {
    if more.Some? {
      assert items + ([body] + more.value) == items + [body] + more.value;
    }
  }

  // ----- well-nested source -----

  datatype StringChar = Plain(c: char) | Escape(c: char)

  /** A character of code, a string literal, or a block. */
  datatype Piece = Code(c: char) | Literal(chars: seq<StringChar>) | Nested(pieces: seq<Piece>)

  predicate WellChar(x: StringChar) {
    x.Plain? ==> x.c != '"' && x.c != '\\'
  }

  predicate Well(p: Piece) {
    match p
    case Code(c) => c != '"' && c != '{' && c != '}'
    case Literal(chars) => forall i :: 0 <= i < |chars| ==> WellChar(chars[i])
    case Nested(pieces) => forall i :: 0 <= i < |pieces| ==> Well(pieces[i])
  }

  function RenderChars(chars: seq<StringChar>): string {
    if chars == [] then ""
    else (if chars[0].Plain? then [chars[0].c] else ['\\', chars[0].c]) + RenderChars(chars[1..])
  }

  function Render(p: Piece): string
    decreases p, 0
  {
    match p
    case Code(c) => [c]
    case Literal(chars) => ['"'] + RenderChars(chars) + ['"']
    case Nested(pieces) => ['{'] + RenderAll(pieces) + ['}']
  }

  function RenderAll(pieces: seq<Piece>): string
    decreases pieces, |pieces|
  {
    if pieces == [] then "" else Render(pieces[0]) + RenderAll(pieces[1..])
  }

  // ----- scanning well-nested source -----

  /** Scan a whole text that must not end the scan. */
  function Feed(s: Scan, t: string): Option<Scan>
    decreases |t|
  {
    if t == "" then Some(s)
    else if Ends(s, t[0]) then None
    else Feed(Advance(s, t[0]), t[1..])
  }

  /** Scanning t leads from s to s'. */
  predicate Leads(s: Scan, t: string, s': Scan) {
    Feed(s, t) == Some(s')
  }

  lemma {:induction false} LeadsOn(s: Scan, a: string, s': Scan, b: string, s'': Scan)
    requires Leads(s, a, s') && Leads(s', b, s'')
    ensures Leads(s, a + b, s'')
    decreases |a|
  {
    if a == "" {
      assert a + b == b;
    } else {
      LeadsOn(Advance(s, a[0]), a[1..], s', b, s'');
      assert (a + b)[1..] == a[1..] + b;
    }
  }

  lemma OneChar(s: Scan, c: char)
    requires !Ends(s, c)
    ensures Leads(s, [c], Advance(s, c))
  {
    assert [c][1..] == "";
  }

  lemma {:induction false} StringBody(d: int, chars: seq<StringChar>)
    requires forall i :: 0 <= i < |chars| ==> WellChar(chars[i])
    ensures Leads(Scan(d, true, false), RenderChars(chars), Scan(d, true, false))
  {
    if chars != [] {
      var s, x := Scan(d, true, false), chars[0];
      StringBody(d, chars[1..]);
      if x.Plain? {
        OneChar(s, x.c);
        LeadsOn(s, [x.c], s, RenderChars(chars[1..]), s);
      } else {
        OneChar(s, '\\');
        OneChar(Scan(d, true, true), x.c);
        LeadsOn(s, ['\\'], Scan(d, true, true), [x.c], s);
        assert ['\\'] + [x.c] == ['\\', x.c];
        LeadsOn(s, ['\\', x.c], s, RenderChars(chars[1..]), s);
      }
    }
  }

  lemma LeadsThrough(s: Scan, c: char, s1: Scan, t: string, s2: Scan, c': char, s3: Scan)
    requires Leads(s, [c], s1) && Leads(s1, t, s2) && Leads(s2, [c'], s3)
    ensures Leads(s, [c] + t + [c'], s3)
  {
    LeadsOn(s, [c], s1, t, s2);
    LeadsOn(s, [c] + t, s2, [c'], s3);
  }

  /** Inside a block, a well-nested piece leaves the scan as it was. */
  lemma {:induction false} PieceIsNeutral(d: int, p: Piece)
    requires d >= 1 && Well(p)
    ensures Leads(Scan(d, false, false), Render(p), Scan(d, false, false))
    decreases p, 0
  {
    var s := Scan(d, false, false);
    match p
    case Code(c) => OneChar(s, c);
    case Literal(chars) =>
      OneChar(s, '"');
      StringBody(d, chars);
      OneChar(Scan(d, true, false), '"');
      LeadsThrough(s, '"', Scan(d, true, false), RenderChars(chars), Scan(d, true, false), '"', s);
    case Nested(pieces) =>
      OneChar(s, '{');
      PiecesAreNeutral(d + 1, pieces);
      OneChar(Scan(d + 1, false, false), '}');
      LeadsThrough(s, '{', Scan(d + 1, false, false), RenderAll(pieces), Scan(d + 1, false, false), '}', s);
  }

  lemma {:induction false} PiecesAreNeutral(d: int, pieces: seq<Piece>)
    requires d >= 1 && forall i :: 0 <= i < |pieces| ==> Well(pieces[i])
    ensures Leads(Scan(d, false, false), RenderAll(pieces), Scan(d, false, false))
    decreases pieces, |pieces|
  {
    if pieces != [] {
      var s := Scan(d, false, false);
      PieceIsNeutral(d, pieces[0]);
      PiecesAreNeutral(d, pieces[1..]);
      LeadsOn(s, Render(pieces[0]), s, RenderAll(pieces[1..]), s);
    }
  }

  /** A scan that leads through t ends at the closing brace behind it. */
  lemma {:induction false} ClosesBehind(text: string, i: nat, s: Scan, t: string)
    requires i + |t| < |text| && text[i..i + |t|] == t && text[i + |t|] == '}'
    requires Leads(s, t, Scan(1, false, false))
    ensures Close(text, i, s) == Some(i + |t|)
    decreases |t|
  {
    if t != "" {
      assert text[i] == t[0];
      assert text[i + 1..i + 1 + |t[1..]|] == t[1..];
      ClosesBehind(text, i + 1, Advance(s, t[0]), t[1..]);
    }
  }

  /** The text holds the block { t } at position i. */
  predicate Holds(text: string, i: nat, t: string) {
    i + |t| + 2 <= |text| && text[i] == '{' && text[i + 1..i + 1 + |t|] == t && text[i + 1 + |t|] == '}'
  }

  /** `balanced` recovers exactly the body of a well-nested block, however deep it is and whatever
      its string literals hold, and stops right behind it. */
  lemma BlockRecovered(text: string, start: nat, pieces: seq<Piece>)
    requires Well(Nested(pieces)) && Holds(text, start, RenderAll(pieces))
    ensures BlockAt(text, start) == Some(Block(RenderAll(pieces), start + |RenderAll(pieces)| + 2))
  {
    var t := RenderAll(pieces);
    PiecesAreNeutral(1, pieces);
    ClosesBehind(text, start + 1, Scan(1, false, false), t);
    OpensAt(text, start);
  }

  lemma OpensAt(text: string, start: nat)
    requires start < |text| && text[start] == '{'
    ensures Close(text, start, OUTSIDE) == Close(text, start + 1, Scan(1, false, false))
  {}

  // ----- a list of blocks -----

  /** Blocks with text before each of them. */
  datatype Item = Item(before: string, pieces: seq<Piece>)

  predicate NoBrace(s: string) {
    forall i :: 0 <= i < |s| ==> s[i] != '{'
  }

  predicate WellItems(items: seq<Item>) {
    forall i :: 0 <= i < |items| ==> NoBrace(items[i].before) && Well(Nested(items[i].pieces))
  }

  function RenderItem(x: Item): string {
    x.before + Render(Nested(x.pieces))
  }

  function RenderItems(items: seq<Item>, tail: string): string {
    if items == [] then tail else RenderItem(items[0]) + RenderItems(items[1..], tail)
  }

  function Bodies(items: seq<Item>): (r: seq<string>)
    ensures |r| == |items|
  {
    seq(|items|, i requires 0 <= i < |items| => RenderAll(items[i].pieces))
  }

  lemma {:induction false} FindsFirst(text: string, from: nat, k: nat)
    requires from <= k < |text| && text[k] == '{' && forall i :: from <= i < k ==> text[i] != '{'
    ensures FindBrace(text, from) == Some(k)
    decreases k - from
  {
    if from < k {
      FindsFirst(text, from + 1, k);
    }
  }

  /** The first item of a rendered list lies where the cursor looks for it. */
  lemma ItemInPlace(text: string, cursor: nat, x: Item, rest: string)
    requires cursor <= |text| && text[cursor..] == RenderItem(x) + rest && NoBrace(x.before)
    ensures var k, t := cursor + |x.before|, RenderAll(x.pieces);
            && Holds(text, k, t) && FindBrace(text, cursor) == Some(k)
            && k + |t| + 2 <= |text| && text[k + |t| + 2..] == rest
  {
    var k, t := cursor + |x.before|, RenderAll(x.pieces);
    var s := text[cursor..];
    assert s == x.before + ['{'] + t + ['}'] + rest;
    assert forall i :: 0 <= i < |s| ==> text[cursor + i] == s[i];
    assert s[|x.before| + 1..|x.before| + 1 + |t|] == t;
    assert s[|x.before| + |t| + 2..] == rest;
    FindsFirst(text, cursor, k);
  }

  /** The cursor loop recovers every block of the list, in order. */
  lemma {:induction false} ItemsRecovered(text: string, cursor: nat, items: seq<Item>, tail: string)
    requires cursor <= |text| && text[cursor..] == RenderItems(items, tail)
    requires WellItems(items) && NoBrace(tail)
    ensures ItemsFrom(text, cursor) == Some(Bodies(items))
    decreases |items|
  {
    if items == [] {
      NothingLeft(text, cursor);
    } else {
      var end := FirstItem(text, cursor, items[0], RenderItems(items[1..], tail));
      ItemsRecovered(text, end, items[1..], tail);
      BodiesFrom(items);
    }
  }

  lemma FirstItem(text: string, cursor: nat, x: Item, rest: string) returns (end: nat)
    requires cursor <= |text| && text[cursor..] == RenderItem(x) + rest
    requires NoBrace(x.before) && Well(Nested(x.pieces))
    ensures end <= |text| && text[end..] == rest
    ensures ItemsFrom(text, cursor) == Prepend([RenderAll(x.pieces)], ItemsFrom(text, end))
  {
    var k, t := cursor + |x.before|, RenderAll(x.pieces);
    ItemInPlace(text, cursor, x, rest);
    BlockRecovered(text, k, x.pieces);
    end := k + |t| + 2;
    NextItem(text, cursor, k, t);
  }

  lemma NextItem(text: string, cursor: nat, k: nat, t: string)
    requires cursor <= |text| && FindBrace(text, cursor) == Some(k) && k + |t| + 2 <= |text|
    requires BlockAt(text, k) == Some(Block(t, k + |t| + 2))
    ensures ItemsFrom(text, cursor) == Prepend([t], ItemsFrom(text, k + |t| + 2))
  {}

  lemma BodiesFrom(items: seq<Item>)
    requires items != []
    ensures Bodies(items) == [RenderAll(items[0].pieces)] + Bodies(items[1..])
  {}

  lemma NothingLeft(text: string, cursor: nat)
    requires cursor <= |text| && NoBrace(text[cursor..])
    ensures FindBrace(text, cursor) == None
  {
    assert forall i :: cursor <= i < |text| ==> text[i] == text[cursor..][i - cursor];
  }
}
