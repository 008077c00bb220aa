/** Canonical JSON text: one text for each value up to the order of object keys, and a reader to prove it. */
module CanonicalJson {
  import opened Prelude
  import opened Strings

  /** Numbers are identified with their rendering. An object's keys are distinct but in any order. */
  datatype Value =
    | Null
    | Bool(flag: bool)
    | Number(digits: string)
    | Text(text: string)
    | Array(items: seq<Value>)
    | Object(members: seq<Member>)

  datatype Member = Member(key: string, value: Value)

  predicate NumberChar(c: char) {
    '0' <= c <= '9' || c == '-' || c == '+' || c == '.' || c == 'e' || c == 'E'
  }

  predicate IsNumber(s: string) {
    s != "" && (s[0] == '-' || '0' <= s[0] <= '9') && forall i | 0 <= i < |s| :: NumberChar(s[i])
  }

  function Keys(members: seq<Member>): (r: seq<string>)
    ensures |r| == |members| && forall i | 0 <= i < |r| :: r[i] == members[i].key
  {
    seq(|members|, i requires 0 <= i < |members| => members[i].key)
  }

  predicate Distinct(members: seq<Member>) {
    forall i, j | 0 <= i < j < |members| :: members[i].key != members[j].key
  }

  predicate WellFormed(v: Value)
    decreases v
  {
    match v
    case Number(digits) => IsNumber(digits)
    case Array(items) => forall i | 0 <= i < |items| :: WellFormed(items[i])
    case Object(members) => Distinct(members) && forall i | 0 <= i < |members| :: WellFormed(members[i].value)
    case _ => true
  }

  // ---------- Strings ----------

  function HexDigit(n: nat): char
    requires n < 16
  {
    if n < 10 then '0' + n as char else 'a' + (n - 10) as char
  }

  function HexValue(c: char): Option<nat> {
    if '0' <= c <= '9' then Some(c as nat - '0' as nat)
    else if 'a' <= c <= 'f' then Some(c as nat - 'a' as nat + 10)
    else None
  }

  function EscapeChar(c: char): string {
    if c == '"' then ['\\', '"']
    else if c == '\\' then ['\\', '\\']
    else if c as int == 8 then ['\\', 'b']
    else if c as int == 9 then ['\\', 't']
    else if c as int == 10 then ['\\', 'n']
    else if c as int == 12 then ['\\', 'f']
    else if c as int == 13 then ['\\', 'r']
    else if c as int < 0x20 then ['\\', 'u', '0', '0', HexDigit(c as nat / 16), HexDigit(c as nat % 16)]
    else [c]
  }

  function Escape(s: string): string {
    if s == "" then "" else EscapeChar(s[0]) + Escape(s[1..])
  }

  function Quoted(s: string): string { ['"'] + (Escape(s) + ['"']) }

  // ---------- Text ----------

  /** The text of a value with its object keys in the order given. */
  function Render(v: Value): string
    decreases v, 0
  {
    match v
    case Null => "null"
    case Bool(flag) => if flag then "true" else "false"
    case Number(digits) => digits
    case Text(text) => Quoted(text)
    case Array(items) => "[" + (RenderItems(items) + "]")
    case Object(members) => "{" + (RenderMembers(members) + "}")
  }

  function RenderItems(items: seq<Value>): string
    decreases items, 1
  {
    if items == [] then ""
    else RenderItems(items[..|items| - 1]) + ((if |items| > 1 then "," else "") + Render(items[|items| - 1]))
  }

  function RenderMembers(members: seq<Member>): string
    decreases members, 1
  {
    if members == [] then ""
    else
      RenderMembers(members[..|members| - 1])
      + ((if |members| > 1 then "," else "") + RenderMember(members[|members| - 1]))
  }

  function RenderMember(m: Member): string
    decreases m, 1
  {
    Quoted(m.key) + ([':'] + Render(m.value))
  }

  // ---------- The normal form ----------

  ghost predicate Sorted(members: seq<Member>) { StrictlySorted(Keys(members)) }

  function InsertMember(m: Member, members: seq<Member>): (r: seq<Member>)
    requires Sorted(members) && m.key !in Keys(members)
    ensures Sorted(r)
    ensures forall x :: x in r <==> x == m || x in members
  {
    if members == [] then [m]
    else if Less(m.key, members[0].key) then
      InFront(m, members);
      [m] + members
    else
      TailSorted(members);
      assert members == [members[0]] + members[1..];
      var rest := InsertMember(m, members[1..]);
      HeadBelow(m, members, rest);
      [members[0]] + rest
  }

  lemma TailSorted(members: seq<Member>)
    requires Sorted(members) && members != []
    ensures Sorted(members[1..]) && forall k :: k in Keys(members[1..]) ==> k in Keys(members)
    ensures forall x | x in members[1..] :: Less(members[0].key, x.key)
  {
    assert Keys(members[1..]) == Keys(members)[1..];
    forall x | x in members[1..] ensures Less(members[0].key, x.key) {
      var i :| 0 <= i < |members[1..]| && members[1..][i] == x;
      assert Less(Keys(members)[0], Keys(members)[i + 1]);
    }
  }

  lemma InFront(m: Member, members: seq<Member>)
    requires Sorted(members) && members != [] && Less(m.key, members[0].key)
    ensures Sorted([m] + members)
  {
    var keys := Keys([m] + members);
    forall j | 0 < j < |keys| ensures Less(keys[0], keys[j]) {
      if j > 1 {
        assert Less(Keys(members)[0], Keys(members)[j - 1]);
        LessTransitive(m.key, members[0].key, members[j - 1].key);
      }
    }
    assert forall i, j | 0 < i < j < |keys| :: keys[i] == Keys(members)[i - 1] && keys[j] == Keys(members)[j - 1];
  }

  lemma HeadBelow(m: Member, members: seq<Member>, rest: seq<Member>)
    requires Sorted(members) && members != [] && m.key !in Keys(members) && !Less(m.key, members[0].key)
    requires Sorted(rest) && forall x :: x in rest <==> x == m || x in members[1..]
    ensures Sorted([members[0]] + rest)
  {
    TailSorted(members);
    assert Keys(members)[0] == members[0].key;
    LessTotal(m.key, members[0].key);
    var keys := Keys([members[0]] + rest);
    forall j | 0 < j < |keys| ensures Less(keys[0], keys[j]) {
      assert rest[j - 1] in rest;
    }
    assert forall i, j | 0 < i < j < |keys| :: keys[i] == Keys(rest)[i - 1] && keys[j] == Keys(rest)[j - 1];
  }

  /** Sorts an object's members by key. */
  function SortMembers(members: seq<Member>): (r: seq<Member>)
    requires Distinct(members)
    ensures Sorted(r)
    ensures forall x :: x in r <==> x in members
  {
    if members == [] then []
    else
      assert members == [members[0]] + members[1..];
      var rest := SortMembers(members[1..]);
      NotAgain(members, rest);
      InsertMember(members[0], rest)
  }

  lemma NotAgain(members: seq<Member>, rest: seq<Member>)
    requires Distinct(members) && members != [] && forall x :: x in rest <==> x in members[1..]
    ensures members[0].key !in Keys(rest)
  {
    forall i | 0 <= i < |rest| ensures rest[i].key != members[0].key {
      assert rest[i] in rest;
      var j :| 0 <= j < |members[1..]| && members[1..][j] == rest[i];
      assert members[j + 1] == rest[i];
    }
  }

  /** The value with the keys of every object in order. */
  function Normal(v: Value): Value
    requires WellFormed(v)
    decreases v, 0
  {
    match v
    case Array(items) => Array(NormalItems(items))
    case Object(members) => Object(SortMembers(NormalMembers(members)))
    case _ => v
  }

  function NormalItems(items: seq<Value>): (r: seq<Value>)
    requires forall i | 0 <= i < |items| :: WellFormed(items[i])
    ensures |r| == |items| && forall i | 0 <= i < |r| :: r[i] == Normal(items[i])
    decreases items, 1
  {
    seq(|items|, i requires 0 <= i < |items| => Normal(items[i]))
  }

  function NormalMembers(members: seq<Member>): (r: seq<Member>)
    requires Distinct(members) && forall i | 0 <= i < |members| :: WellFormed(members[i].value)
    ensures |r| == |members| && forall i | 0 <= i < |r| :: r[i] == Member(members[i].key, Normal(members[i].value))
    ensures Distinct(r)
    decreases members, 1
  {
    seq(|members|, i requires 0 <= i < |members| => Member(members[i].key, Normal(members[i].value)))
  }
}
