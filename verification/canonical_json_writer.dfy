/** Writing canonical JSON: the writer, and that its text identifies a value up to the order of keys. */
module CanonicalJsonWriter {
  import opened Prelude
  import opened Strings
  import opened CanonicalJson
  import opened CanonicalJsonReader

  // ---------- The writer ----------

  method Lookup(members: seq<Member>, key: string) returns (i: nat)
    requires key in Keys(members)
    ensures i < |members| && members[i].key == key
  {
    i := 0;
    var j :| 0 <= j < |members| && Keys(members)[j] == key;
    while members[i].key != key
      invariant i <= j
      decreases |members| - i
    {
      i := i + 1;
    }
  }

  /** The sorted keys are the keys of the sorted members, and lead to their values. */
  lemma SortedKeysLead(members: seq<Member>, k: nat, i: nat)
    requires WellFormed(Object(members))
    requires k < |SortDedup(Keys(members))| && i < |members| && members[i].key == SortDedup(Keys(members))[k]
    ensures var sorted := SortMembers(NormalMembers(members));
      && Keys(sorted) == SortDedup(Keys(members))
      && sorted[k] == Member(members[i].key, Normal(members[i].value))
  {
    var sorted := SortMembers(NormalMembers(members));
    SortedKeysAgree(members);
    assert sorted[k] in NormalMembers(members);
    var j :| 0 <= j < |members| && NormalMembers(members)[j] == sorted[k];
    assert members[j].key == members[i].key;
    assert i == j;
  }

  lemma SortedKeysAgree(members: seq<Member>)
    requires WellFormed(Object(members))
    ensures Keys(SortMembers(NormalMembers(members))) == SortDedup(Keys(members))
  {
    var normal := NormalMembers(members);
    var sorted := SortMembers(normal);
    forall y ensures y in Keys(sorted) <==> y in Keys(members) {
      SameKeys(sorted, normal, y);
      assert Keys(normal) == Keys(members);
    }
    SortedUnique(Keys(sorted), SortDedup(Keys(members)));
  }

  lemma SameKeys(a: seq<Member>, b: seq<Member>, y: string)
    requires forall x :: x in a <==> x in b
    ensures y in Keys(a) <==> y in Keys(b)
  {
    if y in Keys(a) {
      var i :| 0 <= i < |a| && a[i].key == y;
      assert a[i] in b;
      var j :| 0 <= j < |b| && b[j] == a[i];
      assert Keys(b)[j] == y;
    }
    if y in Keys(b) {
      var i :| 0 <= i < |b| && b[i].key == y;
      assert b[i] in a;
      var j :| 0 <= j < |a| && a[j] == b[i];
      assert Keys(a)[j] == y;
    }
  }

  lemma Enclosed(out: string, open: string, body: string, close: string)
    ensures ((out + open) + body) + close == out + (open + (body + close))
  {}

  /** Appends the canonical text of a value. */
  method Write(v: Value, out: string) returns (r: string)
    requires WellFormed(v)
    ensures r == out + Render(Normal(v))
    decreases v, 0
  {
    match v {
      case Null => r := out + "null";
      case Bool(flag) => r := out + (if flag then "true" else "false");
      case Number(digits) => r := out + digits;
      case Text(text) => r := out + Quoted(text);
      case Array(items) =>
        Enclosed(out, "[", RenderItems(NormalItems(items)), "]");
        r := WriteItems(items, out + "[");
        r := r + "]";
      case Object(members) =>
        Enclosed(out, "{", RenderMembers(SortMembers(NormalMembers(members))), "}");
        r := WriteMembers(members, out + "{");
        r := r + "}";
    }
  }

  method WriteItems(items: seq<Value>, out: string) returns (r: string)
    requires forall i | 0 <= i < |items| :: WellFormed(items[i])
    ensures r == out + RenderItems(NormalItems(items))
    decreases items, 1
  {
    r := out;
    ghost var normal := NormalItems(items);
    for index := 0 to |items|
      invariant r == out + RenderItems(normal[..index])
    {
      assert normal[..index + 1][..index] == normal[..index];
      if index > 0 {
        r := r + ",";
      }
      r := Write(items[index], r);
    }
    assert normal[..|items|] == normal;
  }

  lemma Appended(out: string, done: string, item: string)
    ensures ((out + done) + ",") + item == out + (done + ("," + item))
    ensures (out + done) + item == out + (done + ("" + item))
  {}

  lemma RenderMembersStep(members: seq<Member>, k: nat)
    requires k < |members|
    ensures RenderMembers(members[..k + 1])
         == RenderMembers(members[..k]) + ((if k > 0 then "," else "") + RenderMember(members[k]))
  {
    assert members[..k + 1][..k] == members[..k];
  }

  /** Finds the value of the key at the given place and appends both. */
  method WriteMember(members: seq<Member>, keys: seq<string>, index: nat, out: string) returns (r: string)
    requires WellFormed(Object(members)) && keys == SortDedup(Keys(members)) && index < |keys|
    ensures var sorted := SortMembers(NormalMembers(members));
      Keys(sorted) == keys && r == out + RenderMember(sorted[index])
    decreases members, 1
  {
    assert keys[index] in Keys(members);
    var i := Lookup(members, keys[index]);
    SortedKeysLead(members, index, i);
    r := out + Quoted(keys[index]);
    r := r + [':'];
    r := Write(members[i].value, r);
  }

  method WriteMembers(members: seq<Member>, out: string) returns (r: string)
    requires WellFormed(Object(members))
    ensures r == out + RenderMembers(SortMembers(NormalMembers(members)))
    decreases members, 2
  {
    r := out;
    var keys := SortDedup(Keys(members));
    ghost var sorted := SortMembers(NormalMembers(members));
    SortedKeysAgree(members);
    for index := 0 to |keys|
      invariant r == out + RenderMembers(sorted[..index])
    {
      RenderMembersStep(sorted, index);
      Appended(out, RenderMembers(sorted[..index]), RenderMember(sorted[index]));
      if index > 0 {
        r := r + ",";
      }
      r := WriteMember(members, keys, index, r);
    }
    assert sorted[..|keys|] == sorted;
  }

  method CanonicalText(v: Value) returns (r: string)
    requires WellFormed(v)
    ensures r == Canonical(v)
  {
    r := Write(v, "");
  }

  // ---------- A canonical form ----------

  ghost function Canonical(v: Value): string
    requires WellFormed(v)
  {
    Render(Normal(v))
  }

  /** The same value, whatever order its objects list their members in. */
  predicate Same(a: Value, b: Value)
    decreases a, 0
  {
    match (a, b)
    case (Array(xs), Array(ys)) => |xs| == |ys| && forall i | 0 <= i < |xs| :: Same(xs[i], ys[i])
    case (Object(ms), Object(ns)) => AllFound(ms, ns) && NoneExtra(ms, ns)
    case _ => a == b
  }

  predicate AllFound(ms: seq<Member>, ns: seq<Member>)
    decreases ms, 1
  {
    forall i | 0 <= i < |ms| :: exists j | 0 <= j < |ns| :: SameMember(ms[i], ns[j])
  }

  predicate NoneExtra(ms: seq<Member>, ns: seq<Member>)
    decreases ms, 1
  {
    forall j | 0 <= j < |ns| :: exists i | 0 <= i < |ms| :: SameMember(ms[i], ns[j])
  }

  predicate SameMember(m: Member, n: Member)
    decreases m, 0
  {
    m.key == n.key && Same(m.value, n.value)
  }

  lemma SortedIsDistinct(members: seq<Member>)
    requires Sorted(members)
    ensures Distinct(members)
  {
    forall i, j | 0 <= i < j < |members| ensures members[i].key != members[j].key {
      assert Less(Keys(members)[i], Keys(members)[j]);
      LessIrreflexive(members[i].key);
    }
  }

  lemma {:induction false} NormalIsWellFormed(v: Value)
    requires WellFormed(v)
    ensures WellFormed(Normal(v))
    decreases v
  {
    match v {
      case Array(items) =>
        forall i | 0 <= i < |items| ensures WellFormed(Normal(items[i])) { NormalIsWellFormed(items[i]); }
      case Object(members) =>
        forall i | 0 <= i < |members|
          ensures WellFormed(Normal(members[i].value))
        { NormalIsWellFormed(members[i].value); }
        var normal := NormalMembers(members);
        var sorted := SortMembers(normal);
        SortedIsDistinct(sorted);
        forall i | 0 <= i < |sorted| ensures WellFormed(sorted[i].value) {
          assert sorted[i] in normal;
        }
      case _ =>
    }
  }

  /** Sorted by key, members that are the same as a set are the same as a list. */
  lemma SortedMembersUnique(a: seq<Member>, b: seq<Member>)
    requires Sorted(a) && Sorted(b) && forall x :: x in a <==> x in b
    ensures a == b
  {
    forall y ensures y in Keys(a) <==> y in Keys(b) { SameKeys(a, b, y); }
    SortedUnique(Keys(a), Keys(b));
    SortedIsDistinct(b);
    forall i | 0 <= i < |a| ensures a[i] == b[i] {
      assert a[i] in b;
      var j :| 0 <= j < |b| && b[j] == a[i];
      assert Keys(a)[i] == Keys(b)[i];
    }
  }

  lemma {:induction false} SameNormal(a: Value, b: Value)
    requires WellFormed(a) && WellFormed(b)
    ensures Normal(a) == Normal(b) <==> Same(a, b)
    decreases a
  {
    match (a, b) {
      case (Array(xs), Array(ys)) =>
        forall i | 0 <= i < |xs| && i < |ys|
          ensures Normal(xs[i]) == Normal(ys[i]) <==> Same(xs[i], ys[i])
        { SameNormal(xs[i], ys[i]); }
        assert Normal(a) == Normal(b) <==> NormalItems(xs) == NormalItems(ys);
      case (Object(ms), Object(ns)) =>
        forall i, j | 0 <= i < |ms| && 0 <= j < |ns|
          ensures Normal(ms[i].value) == Normal(ns[j].value) <==> Same(ms[i].value, ns[j].value)
        {
          SameNormal(ms[i].value, ns[j].value);
        }
        SameObjects(ms, ns);
      case _ =>
    }
  }

  /** For these members, being the same and having the same normal form agree. */
  ghost predicate Agree(ms: seq<Member>, ns: seq<Member>)
    requires WellFormed(Object(ms)) && WellFormed(Object(ns))
  {
    forall i, j | 0 <= i < |ms| && 0 <= j < |ns| :: Normal(ms[i].value) == Normal(ns[j].value)
      <==> Same(ms[i].value, ns[j].value)
  }

  lemma MemberIn(ms: seq<Member>, ns: seq<Member>, i: nat)
    requires WellFormed(Object(ms)) && WellFormed(Object(ns)) && Agree(ms, ns) && i < |ms|
    ensures NormalMembers(ms)[i] in NormalMembers(ns) <==> exists j | 0 <= j < |ns| :: SameMember(ms[i], ns[j])
  {
    var x, b := NormalMembers(ms)[i], NormalMembers(ns);
    if x in b {
      var j :| 0 <= j < |b| && b[j] == x;
      assert SameMember(ms[i], ns[j]);
    }
    if j :| 0 <= j < |ns| && SameMember(ms[i], ns[j]) {
      assert b[j] == x;
    }
  }

  lemma MemberFrom(ms: seq<Member>, ns: seq<Member>, j: nat)
    requires WellFormed(Object(ms)) && WellFormed(Object(ns)) && Agree(ms, ns) && j < |ns|
    ensures NormalMembers(ns)[j] in NormalMembers(ms) <==> exists i | 0 <= i < |ms| :: SameMember(ms[i], ns[j])
  {
    var x, a := NormalMembers(ns)[j], NormalMembers(ms);
    if x in a {
      var i :| 0 <= i < |a| && a[i] == x;
      assert SameMember(ms[i], ns[j]);
    }
    if i :| 0 <= i < |ms| && SameMember(ms[i], ns[j]) {
      assert a[i] == x;
    }
  }

  ghost predicate Within(a: seq<Member>, b: seq<Member>) { forall i | 0 <= i < |a| :: a[i] in b }

  lemma SortedAsSets(a: seq<Member>, b: seq<Member>)
    requires Distinct(a) && Distinct(b)
    ensures SortMembers(a) == SortMembers(b) <==> Within(a, b) && Within(b, a)
  {
    if Within(a, b) && Within(b, a) {
      assert forall x :: x in a <==> x in b;
      SortedMembersUnique(SortMembers(a), SortMembers(b));
    }
  }

  lemma FoundIsWithin(ms: seq<Member>, ns: seq<Member>)
    requires WellFormed(Object(ms)) && WellFormed(Object(ns)) && Agree(ms, ns)
    ensures Within(NormalMembers(ms), NormalMembers(ns)) <==> AllFound(ms, ns)
  {
    forall i | 0 <= i < |ms|
      ensures NormalMembers(ms)[i] in NormalMembers(ns) <==> exists j | 0 <= j < |ns| :: SameMember(ms[i], ns[j])
    {
      MemberIn(ms, ns, i);
    }
  }

  lemma NoExtraIsWithin(ms: seq<Member>, ns: seq<Member>)
    requires WellFormed(Object(ms)) && WellFormed(Object(ns)) && Agree(ms, ns)
    ensures Within(NormalMembers(ns), NormalMembers(ms)) <==> NoneExtra(ms, ns)
  {
    forall j | 0 <= j < |ns|
      ensures NormalMembers(ns)[j] in NormalMembers(ms) <==> exists i | 0 <= i < |ms| :: SameMember(ms[i], ns[j])
    {
      MemberFrom(ms, ns, j);
    }
  }

  lemma SameObjects(ms: seq<Member>, ns: seq<Member>)
    requires WellFormed(Object(ms)) && WellFormed(Object(ns)) && Agree(ms, ns)
    ensures SortMembers(NormalMembers(ms)) == SortMembers(NormalMembers(ns)) <==> AllFound(ms, ns) && NoneExtra(ms, ns)
  {
    FoundIsWithin(ms, ns);
    NoExtraIsWithin(ms, ns);
    SortedAsSets(NormalMembers(ms), NormalMembers(ns));
  }

  /** The reader recovers the normalised value from the canonical text. */
  lemma CanonicalReadsBack(v: Value)
    requires WellFormed(v)
    ensures ReadValue(Canonical(v)) == Some(Got(Normal(v), ""))
  {
    NormalIsWellFormed(v);
    ReadBack(Normal(v), "");
    assert Canonical(v) + "" == Canonical(v);
  }

  /** Two values have the same canonical text exactly when they are the same up to the order of keys. */
  lemma CanonicalIdentifies(a: Value, b: Value)
    requires WellFormed(a) && WellFormed(b)
    ensures Canonical(a) == Canonical(b) <==> Same(a, b)
  {
    CanonicalReadsBack(a);
    CanonicalReadsBack(b);
    SameNormal(a, b);
  }
}
