/** A reader for the canonical text, which recovers every value whatever its text is followed by. */
module CanonicalJsonReader {
  import opened Prelude
  import opened CanonicalJson

  datatype Got<T> = Got(value: T, rest: string)

  datatype Piece = Piece(head: char, rest: string)

  // ---------- Strings ----------

  /** One character of a string, behind its opening quote. */
  function ReadChar(s: string): (r: Option<Piece>)
    ensures r.Some? ==> |r.value.rest| < |s|
  {
    if s == "" || s[0] == '"' || s[0] as int < 0x20 then None
    else if s[0] != '\\' then Some(Piece(s[0], s[1..]))
    else if |s| < 2 then None
    else if s[1] == '"' || s[1] == '\\' then Some(Piece(s[1], s[2..]))
    else if s[1] == 'b' then Some(Piece(8 as char, s[2..]))
    else if s[1] == 't' then Some(Piece(9 as char, s[2..]))
    else if s[1] == 'n' then Some(Piece(10 as char, s[2..]))
    else if s[1] == 'f' then Some(Piece(12 as char, s[2..]))
    else if s[1] == 'r' then Some(Piece(13 as char, s[2..]))
    else if s[1] == 'u' && |s| >= 6 && s[2] == '0' && s[3] == '0' && HexValue(s[4]).Some? && HexValue(s[5]).Some? then
      Some(Piece((HexValue(s[4]).value * 16 + HexValue(s[5]).value) as char, s[6..]))
    else None
  }

  function ReadChars(s: string): (r: Option<Got<string>>)
    ensures r.Some? ==> |r.value.rest| < |s|
    decreases |s|
  {
    if s == "" then None
    else if s[0] == '"' then Some(Got("", s[1..]))
    else
      var first := ReadChar(s);
      if first.None? then None
      else
        var more := ReadChars(first.value.rest);
        if more.None? then None else Some(Got([first.value.head] + more.value.value, more.value.rest))
  }

  function ReadQuoted(s: string): (r: Option<Got<string>>)
    ensures r.Some? ==> |r.value.rest| < |s|
  {
    if s == "" || s[0] != '"' then None else ReadChars(s[1..])
  }

  lemma HexBack(n: nat)
    requires n < 16
    ensures HexValue(HexDigit(n)) == Some(n)
  {}

  lemma ReadCharBack(c: char, rest: string)
    ensures ReadChar(EscapeChar(c) + rest) == Some(Piece(c, rest))
    ensures EscapeChar(c)[0] != '"'
  {
    var escaped := EscapeChar(c);
    var s := escaped + rest;
    assert forall i | 0 <= i < |escaped| :: s[i] == escaped[i];
    assert s[|escaped|..] == rest;
    if c as int < 0x20 {
      HexBack(c as nat / 16);
      HexBack(c as nat % 16);
    }
  }

  lemma {:induction false} ReadCharsBack(text: string, rest: string)
    ensures ReadChars(Escape(text) + (['"'] + rest)) == Some(Got(text, rest))
  {
    var s := Escape(text) + (['"'] + rest);
    if text == "" {
      assert s == ['"'] + rest;
    } else {
      var more := Escape(text[1..]) + (['"'] + rest);
      assert s == EscapeChar(text[0]) + more;
      ReadCharBack(text[0], more);
      ReadCharsBack(text[1..], rest);
      assert s[0] == EscapeChar(text[0])[0];
      assert [text[0]] + text[1..] == text;
    }
  }

  lemma ReadQuotedBack(text: string, rest: string)
    ensures ReadQuoted(Quoted(text) + rest) == Some(Got(text, rest))
  {
    var s, escaped := Quoted(text) + rest, Escape(text);
    Bracketed(['"'], escaped, ['"'], rest);
    ReadCharsBack(text, rest);
    assert s[0] == '"';
  }

  // ---------- Values ----------

  function NumberLength(s: string): (r: nat)
    ensures r <= |s| && (forall i | 0 <= i < r :: NumberChar(s[i])) && (r < |s| ==> !NumberChar(s[r]))
  {
    if s == "" || !NumberChar(s[0]) then 0 else 1 + NumberLength(s[1..])
  }

  function ReadNumber(s: string): (r: Option<Got<Value>>)
    ensures r.Some? ==> |r.value.rest| < |s|
  {
    var n := NumberLength(s);
    if n == 0 then None else Some(Got(Number(s[..n]), s[n..]))
  }

  function ReadWord(s: string): (r: Option<Got<Value>>)
    ensures r.Some? ==> |r.value.rest| < |s|
  {
    if "null" <= s then Some(Got(Null, s[4..]))
    else if "true" <= s then Some(Got(Bool(true), s[4..]))
    else if "false" <= s then Some(Got(Bool(false), s[5..]))
    else None
  }

  function ReadValue(s: string): (r: Option<Got<Value>>)
    ensures r.Some? ==> |r.value.rest| < |s|
    decreases |s|, 0
  {
    if s == "" then None
    else if s[0] == '"' then
      var text := ReadQuoted(s);
      if text.None? then None else Some(Got(Text(text.value.value), text.value.rest))
    else if s[0] == '[' then
      if |s| > 1 && s[1] == ']' then Some(Got(Array([]), s[2..]))
      else
        var items := ReadItems(s[1..]);
        if items.None? then None else Some(Got(Array(items.value.value), items.value.rest))
    else if s[0] == '{' then
      if |s| > 1 && s[1] == '}' then Some(Got(Object([]), s[2..]))
      else
        var members := ReadMembers(s[1..]);
        if members.None? then None else Some(Got(Object(members.value.value), members.value.rest))
    else if s[0] == '-' || '0' <= s[0] <= '9' then ReadNumber(s)
    else ReadWord(s)
  }

  /** One or more values with commas between them, up to the closing bracket. */
  function ReadItems(s: string): (r: Option<Got<seq<Value>>>)
    ensures r.Some? ==> |r.value.rest| < |s|
    decreases |s|, 1
  {
    var first := ReadValue(s);
    if first.None? || first.value.rest == "" then None
    else if first.value.rest[0] == ']' then Some(Got([first.value.value], first.value.rest[1..]))
    else if first.value.rest[0] != ',' then None
    else
      var more := ReadItems(first.value.rest[1..]);
      if more.None? then None else Some(Got([first.value.value] + more.value.value, more.value.rest))
  }

  function ReadMember(s: string): (r: Option<Got<Member>>)
    ensures r.Some? ==> |r.value.rest| < |s|
    decreases |s|, 1
  {
    var key := ReadQuoted(s);
    if key.None? || key.value.rest == "" || key.value.rest[0] != ':' then None
    else
      var value := ReadValue(key.value.rest[1..]);
      if value.None? then None else Some(Got(Member(key.value.value, value.value.value), value.value.rest))
  }

  function ReadMembers(s: string): (r: Option<Got<seq<Member>>>)
    ensures r.Some? ==> |r.value.rest| < |s|
    decreases |s|, 2
  {
    var first := ReadMember(s);
    if first.None? || first.value.rest == "" then None
    else if first.value.rest[0] == '}' then Some(Got([first.value.value], first.value.rest[1..]))
    else if first.value.rest[0] != ',' then None
    else
      var more := ReadMembers(first.value.rest[1..]);
      if more.None? then None else Some(Got([first.value.value] + more.value.value, more.value.rest))
  }

  // ---------- Reading back ----------

  /** What may follow a value: nothing, or something a number cannot go on with. */
  predicate Ends(rest: string) { rest == "" || !NumberChar(rest[0]) }

  lemma {:induction false} RenderItemsFront(items: seq<Value>)
    requires items != []
    ensures RenderItems(items) == Render(items[0]) + (if |items| == 1 then "" else "," + RenderItems(items[1..]))
    decreases |items|
  {
    var n := |items| - 1;
    if n > 0 {
      RenderItemsFront(items[..n]);
      assert items[..n][1..] == items[1..][..n - 1];
    } else {
      assert items[..0] == [];
    }
  }

  lemma {:induction false} RenderMembersFront(members: seq<Member>)
    requires members != []
    ensures RenderMembers(members)
         == RenderMember(members[0]) + (if |members| == 1 then "" else "," + RenderMembers(members[1..]))
    decreases |members|
  {
    var n := |members| - 1;
    if n > 0 {
      RenderMembersFront(members[..n]);
      assert members[..n][1..] == members[1..][..n - 1];
    } else {
      assert members[..0] == [];
    }
  }

  lemma {:induction false} NumberLengthStops(digits: string, rest: string)
    requires forall i | 0 <= i < |digits| :: NumberChar(digits[i])
    requires Ends(rest)
    ensures NumberLength(digits + rest) == |digits|
  {
    if digits == "" {
      assert digits + rest == rest;
    } else {
      NumberLengthStops(digits[1..], rest);
      assert (digits + rest)[1..] == digits[1..] + rest;
    }
  }

  lemma ReadNumberBack(digits: string, rest: string)
    requires IsNumber(digits) && Ends(rest)
    ensures ReadValue(digits + rest) == Some(Got(Number(digits), rest))
  {
    NumberLengthStops(digits, rest);
    var s := digits + rest;
    assert s[0] == digits[0] && s[..|digits|] == digits && s[|digits|..] == rest;
  }

  lemma ReadWordBack(v: Value, rest: string)
    requires v.Null? || v.Bool?
    ensures ReadValue(Render(v) + rest) == Some(Got(v, rest))
  {
    var word := Render(v);
    var s := word + rest;
    assert s[0] == word[0];
    assert word <= s && s[|word|..] == rest;
    assert s[1] == word[1];
  }

  lemma ReadTextBack(text: string, rest: string)
    ensures ReadValue(Quoted(text) + rest) == Some(Got(Text(text), rest))
  {
    ReadQuotedBack(text, rest);
  }

  /** A value is read back exactly, in whatever order its object keys stand. */
  lemma {:induction false} ReadBack(v: Value, rest: string)
    requires WellFormed(v) && Ends(rest)
    ensures ReadValue(Render(v) + rest) == Some(Got(v, rest))
    decreases v, 0
  {
    match v {
      case Null => ReadWordBack(v, rest);
      case Bool(_) => ReadWordBack(v, rest);
      case Number(digits) => ReadNumberBack(digits, rest);
      case Text(text) => ReadTextBack(text, rest);
      case Array(items) =>
        if items != [] { ReadItemsBack(items, rest); }
        ArrayBack(items, rest);
      case Object(members) =>
        if members != [] { ReadMembersBack(members, rest); }
        ObjectBack(members, rest);
    }
  }

  lemma ReadArray(s: string, items: seq<Value>, rest: string)
    requires |s| > 1 && s[0] == '[' && s[1] != ']' && ReadItems(s[1..]) == Some(Got(items, rest))
    ensures ReadValue(s) == Some(Got(Array(items), rest))
  {}

  lemma ReadObject(s: string, members: seq<Member>, rest: string)
    requires |s| > 1 && s[0] == '{' && s[1] != '}' && ReadMembers(s[1..]) == Some(Got(members, rest))
    ensures ReadValue(s) == Some(Got(Object(members), rest))
  {}

  lemma Bracketed(open: string, body: string, close: string, rest: string)
    requires |open| == 1
    ensures var s := (open + (body + close)) + rest;
      s[0] == open[0] && s[1..] == body + (close + rest) && (body != "" ==> s[1] == body[0])
  {}

  lemma ArrayBack(items: seq<Value>, rest: string)
    requires items != [] ==> ReadItems(RenderItems(items) + ("]" + rest)) == Some(Got(items, rest))
    requires items != [] ==> Opens(RenderItems(items))
    ensures ReadValue(Render(Array(items)) + rest) == Some(Got(Array(items), rest))
  {
    var s, body := Render(Array(items)) + rest, RenderItems(items);
    Bracketed("[", body, "]", rest);
    if items == [] {
      assert s[1] == ']' && s[2..] == rest;
    } else {
      ReadArray(s, items, rest);
    }
  }

  lemma ObjectBack(members: seq<Member>, rest: string)
    requires members != [] ==> ReadMembers(RenderMembers(members) + ("}" + rest)) == Some(Got(members, rest))
    requires members != [] ==> Opens(RenderMembers(members))
    ensures ReadValue(Render(Object(members)) + rest) == Some(Got(Object(members), rest))
  {
    var s, body := Render(Object(members)) + rest, RenderMembers(members);
    Bracketed("{", body, "}", rest);
    if members == [] {
      assert s[1] == '}' && s[2..] == rest;
    } else {
      ReadObject(s, members, rest);
    }
  }

  /** The text is not empty and does not begin with a closing bracket. */
  predicate Opens(s: string) { s != "" && s[0] != ']' && s[0] != '}' }

  lemma RenderOpens(v: Value)
    requires WellFormed(v)
    ensures Opens(Render(v))
  {}

  lemma LastItem(s: string, v: Value, rest: string)
    requires ReadValue(s) == Some(Got(v, "]" + rest))
    ensures ReadItems(s) == Some(Got([v], rest))
  {
    assert ("]" + rest)[1..] == rest;
  }

  lemma NextItem(s: string, v: Value, tail: string, more: seq<Value>, rest: string)
    requires ReadValue(s) == Some(Got(v, "," + tail)) && ReadItems(tail) == Some(Got(more, rest))
    ensures ReadItems(s) == Some(Got([v] + more, rest))
  {
    assert ("," + tail)[1..] == tail;
  }

  lemma {:induction false} ReadItemsBack(items: seq<Value>, rest: string)
    requires items != [] && forall i | 0 <= i < |items| :: WellFormed(items[i])
    ensures ReadItems(RenderItems(items) + ("]" + rest)) == Some(Got(items, rest))
    ensures Opens(RenderItems(items))
    decreases items, 1
  {
    var s := RenderItems(items) + ("]" + rest);
    RenderItemsFront(items);
    RenderOpens(items[0]);
    if |items| == 1 {
      Regroup(Render(items[0]), "", "", "]" + rest);
      ReadBack(items[0], "]" + rest);
      LastItem(s, items[0], rest);
      assert [items[0]] == items;
    } else {
      var tail := RenderItems(items[1..]) + ("]" + rest);
      Regroup(Render(items[0]), ",", RenderItems(items[1..]), "]" + rest);
      ReadBack(items[0], "," + tail);
      ReadItemsBack(items[1..], rest);
      NextItem(s, items[0], tail, items[1..], rest);
      assert [items[0]] + items[1..] == items;
    }
  }

  lemma {:induction false} ReadMemberBack(m: Member, rest: string)
    requires WellFormed(m.value) && Ends(rest)
    ensures ReadMember(RenderMember(m) + rest) == Some(Got(m, rest))
    ensures Opens(RenderMember(m))
    decreases m, 1
  {
    var tail := [':'] + (Render(m.value) + rest);
    assert RenderMember(m) + rest == Quoted(m.key) + tail;
    ReadQuotedBack(m.key, tail);
    assert tail[1..] == Render(m.value) + rest;
    ReadBack(m.value, rest);
  }

  lemma Regroup(a: string, b: string, c: string, d: string)
    ensures (a + (b + c)) + d == a + (b + (c + d))
    ensures (a + "") + d == a + d
  {}

  lemma LastMember(s: string, m: Member, rest: string)
    requires ReadMember(s) == Some(Got(m, "}" + rest))
    ensures ReadMembers(s) == Some(Got([m], rest))
  {
    assert ("}" + rest)[1..] == rest;
  }

  lemma NextMember(s: string, m: Member, tail: string, more: seq<Member>, rest: string)
    requires ReadMember(s) == Some(Got(m, "," + tail)) && ReadMembers(tail) == Some(Got(more, rest))
    ensures ReadMembers(s) == Some(Got([m] + more, rest))
  {
    assert ("," + tail)[1..] == tail;
  }

  lemma {:induction false} ReadMembersBack(members: seq<Member>, rest: string)
    requires members != [] && forall i | 0 <= i < |members| :: WellFormed(members[i].value)
    ensures ReadMembers(RenderMembers(members) + ("}" + rest)) == Some(Got(members, rest))
    ensures Opens(RenderMembers(members))
    decreases members, 1
  {
    var s := RenderMembers(members) + ("}" + rest);
    RenderMembersFront(members);
    if |members| == 1 {
      Regroup(RenderMember(members[0]), "", "", "}" + rest);
      ReadMemberBack(members[0], "}" + rest);
      LastMember(s, members[0], rest);
      assert [members[0]] == members;
    } else {
      var tail := RenderMembers(members[1..]) + ("}" + rest);
      Regroup(RenderMember(members[0]), ",", RenderMembers(members[1..]), "}" + rest);
      ReadMemberBack(members[0], "," + tail);
      ReadMembersBack(members[1..], rest);
      NextMember(s, members[0], tail, members[1..], rest);
      assert [members[0]] + members[1..] == members;
    }
  }
}
