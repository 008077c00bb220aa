/** Failure signatures: what is accepted, how it is encoded, and that no two of them share an encoding. */
module FailureEncoding {
  import opened Prelude
  import opened Strings
  import opened Decimal

  const MAX_COMPONENTS: nat := 16
  const MAX_COMPONENT_BYTES: nat := 512

  datatype Domain = RustCompiler | CargoTest | TestRun | RegisteredTool

  datatype Capability = Exact | CompatibleOnly

  datatype Scope = Scope(workspaceId: string, language: Option<string>, tool: string, target: Option<string>,
                         path: Option<string>, symbolKey: Option<string>)

  datatype Entry = Entry(name: string, value: string)

  /** What identifies a failure. The components are a map, held as its entries in key order. */
  datatype Identity = Identity(domain: Domain, capability: Capability, components: seq<Entry>, normalizerId: string,
                               normalizerVersion: string, scope: Scope)

  function Names(entries: seq<Entry>): (r: seq<string>)
    ensures |r| == |entries| && forall i | 0 <= i < |r| :: r[i] == entries[i].name
  {
    seq(|entries|, i requires 0 <= i < |entries| => entries[i].name)
  }

  predicate KeyOrdered(entries: seq<Entry>) { StrictlySorted(Names(entries)) }

  function DomainName(domain: Domain): string {
    match domain
    case RustCompiler => "rust_compiler"
    case CargoTest => "cargo_test"
    case TestRun => "test_run"
    case RegisteredTool => "registered_tool"
  }

  function CapabilityName(capability: Capability): string {
    match capability
    case Exact => "exact"
    case CompatibleOnly => "compatible_only"
  }

  // ---------- Sizes ----------

  /** Bytes of a scalar in UTF-8. */
  function CharBytes(c: char): (r: nat)
    ensures 1 <= r <= 4
  {
    if c as int < 0x80 then 1 else if c as int < 0x800 then 2 else if c as int < 0x10000 then 3 else 4
  }

  function ByteLength(s: string): nat {
    if s == "" then 0 else CharBytes(s[0]) + ByteLength(s[1..])
  }

  // ---------- What is accepted ----------

  datatype Problem = BadNormalizerId | BadNormalizerVersion | BadScope | ComponentCount | ComponentName | ComponentValue

  predicate Bounded(value: string) {
    Trim(value) != "" && ByteLength(value) <= MAX_COMPONENT_BYTES && '\0' !in value
  }

  predicate NameChar(c: char) { 'a' <= c <= 'z' || '0' <= c <= '9' || c == '_' }

  predicate ComponentNameOk(name: string) { forall i | 0 <= i < |name| :: NameChar(name[i]) }

  predicate RelativePath(path: string) {
    && Trim(path) != "" && ByteLength(path) <= MAX_COMPONENT_BYTES && '\0' !in path
    && !StartsWith(path, "/") && !StartsWith(path, "\\") && ':' !in path
    && forall part | part in SplitSlash(path) :: part != "" && part != ".."
  }

  predicate ScopeOk(scope: Scope) {
    && Bounded(scope.workspaceId) && Bounded(scope.tool)
    && (scope.language.Some? ==> Bounded(scope.language.value))
    && (scope.target.Some? ==> Bounded(scope.target.value))
    && (scope.symbolKey.Some? ==> Bounded(scope.symbolKey.value))
    && (scope.path.Some? ==> RelativePath(scope.path.value))
  }

  predicate Valid(id: Identity) {
    && Bounded(id.normalizerId) && Bounded(id.normalizerVersion) && ScopeOk(id.scope)
    && 1 <= |id.components| <= MAX_COMPONENTS
    && forall i | 0 <= i < |id.components| :: ComponentNameOk(id.components[i].name) && Bounded(id.components[i].value)
  }

  datatype Signature = Signature(identity: Identity, canonicalEncoding: string)

  datatype Made = Made(signature: Signature) | Refused(problem: Problem)

  /** Checks the parts in order and encodes what passes. */
  method New(id: Identity) returns (r: Made)
    ensures r.Made? <==> Valid(id)
    ensures r.Made? ==> r.signature == Signature(id, Encoding(id))
    ensures r.Refused? ==>
      match r.problem
      case BadNormalizerId => !Bounded(id.normalizerId)
      case BadNormalizerVersion => !Bounded(id.normalizerVersion)
      case BadScope => !ScopeOk(id.scope)
      case ComponentCount => id.components == [] || |id.components| > MAX_COMPONENTS
      case ComponentName => exists i | 0 <= i < |id.components| :: !ComponentNameOk(id.components[i].name)
      case ComponentValue => exists i | 0 <= i < |id.components| :: !Bounded(id.components[i].value)
  {
    if !Bounded(id.normalizerId) { return Refused(BadNormalizerId); }
    if !Bounded(id.normalizerVersion) { return Refused(BadNormalizerVersion); }
    if !ScopeOk(id.scope) { return Refused(BadScope); }
    if id.components == [] || |id.components| > MAX_COMPONENTS { return Refused(ComponentCount); }
    for i := 0 to |id.components|
      invariant forall j | 0 <= j < i :: ComponentNameOk(id.components[j].name) && Bounded(id.components[j].value)
    {
      if !ComponentNameOk(id.components[i].name) { return Refused(ComponentName); }
      if !Bounded(id.components[i].value) { return Refused(ComponentValue); }
    }
    var encoded := CanonicalEncoding(id);
    r := Made(Signature(id, encoded));
  }

  // ---------- The encoding ----------

  const HEADER: string := "cortexweave.failure_signature.v2;"

  function Field(field: Entry): string {
    field.name + ("=" + (Numeral(ByteLength(field.value)) + (":" + (field.value + ";"))))
  }

  function Fields(fields: seq<Entry>): string {
    if fields == [] then "" else Field(fields[0]) + Fields(fields[1..])
  }

  function OptionalValue(value: Option<string>): string { if value.Some? then value.value else "" }

  function FixedFields(id: Identity): (r: seq<Entry>)
    ensures |r| == 10
  {
    [Entry("domain", DomainName(id.domain)), Entry("identity_capability", CapabilityName(id.capability)),
     Entry("normalizer_id", id.normalizerId), Entry("normalizer_version", id.normalizerVersion),
     Entry("workspace_id", id.scope.workspaceId), Entry("language", OptionalValue(id.scope.language)),
     Entry("tool", id.scope.tool), Entry("target", OptionalValue(id.scope.target)),
     Entry("path", OptionalValue(id.scope.path)), Entry("symbol_key", OptionalValue(id.scope.symbolKey))]
  }

  function ComponentFields(components: seq<Entry>): (r: seq<Entry>)
    ensures |r| == |components|
    ensures forall i | 0 <= i < |r| :: r[i] == Entry("component." + components[i].name, components[i].value)
  {
    seq(|components|, i requires 0 <= i < |components| => Entry("component." + components[i].name, components[i].value))
  }

  function AllFields(id: Identity): seq<Entry> {
    FixedFields(id) + ComponentFields(id.components)
  }

  ghost function Encoding(id: Identity): string {
    HEADER + Fields(AllFields(id))
  }

  lemma {:induction false} FieldsAppend(fields: seq<Entry>, last: Entry)
    ensures Fields(fields + [last]) == Fields(fields) + Field(last)
  {
    if fields == [] {
      assert [last][1..] == [];
    } else {
      FieldsAppend(fields[1..], last);
      assert (fields + [last])[1..] == fields[1..] + [last];
    }
  }

  method AppendField(encoded: string, name: string, value: string) returns (r: string)
    ensures r == encoded + Field(Entry(name, value))
  {
    r := encoded + name;
    r := r + "=";
    r := r + Numeral(ByteLength(value));
    r := r + ":";
    r := r + value;
    r := r + ";";
  }

  method AppendFields(encoded: string, fields: seq<Entry>, ghost before: seq<Entry>) returns (r: string)
    requires encoded == HEADER + Fields(before)
    ensures r == HEADER + Fields(before + fields)
  {
    r := encoded;
    assert before + fields[..0] == before;
    for k := 0 to |fields|
      invariant r == HEADER + Fields(before + fields[..k])
    {
      FieldsAppend(before + fields[..k], fields[k]);
      assert before + fields[..k + 1] == (before + fields[..k]) + [fields[k]];
      r := AppendField(r, fields[k].name, fields[k].value);
    }
    assert fields[..|fields|] == fields;
  }

  method CanonicalEncoding(id: Identity) returns (encoded: string)
    ensures encoded == Encoding(id)
  {
    encoded := HEADER;
    encoded := AppendFields(encoded, FixedFields(id), []);
    assert [] + FixedFields(id) == FixedFields(id);
    encoded := AppendFields(encoded, ComponentFields(id.components), FixedFields(id));
  }

  // ---------- Reading it back ----------

  datatype Read = Read(field: Entry, rest: string)

  /** How many characters make up exactly `n` bytes at the front of `s`. */
  function CharsFor(s: string, n: nat): (r: Option<nat>)
    ensures r.Some? ==> r.value <= |s|
  {
    if n == 0 then Some(0)
    else if s == "" || CharBytes(s[0]) > n then None
    else
      var rest := CharsFor(s[1..], n - CharBytes(s[0]));
      if rest.Some? then Some(rest.value + 1) else None
  }

  function IndexOf(s: string, c: char): (r: nat)
    ensures r <= |s| && (forall i | 0 <= i < r :: s[i] != c) && (r < |s| ==> s[r] == c)
  {
    if s == "" || s[0] == c then 0 else 1 + IndexOf(s[1..], c)
  }

  datatype Sized = Sized(value: string, rest: string)

  /** That many bytes and a semicolon. */
  function ReadSized(s: string, size: nat): Option<Sized> {
    var chars := CharsFor(s, size);
    if chars.None? || chars.value == |s| || s[chars.value] != ';' then None
    else Some(Sized(s[..chars.value], s[chars.value + 1..]))
  }

  /** The part behind the name: digits, a colon, that many bytes, a semicolon. */
  function ReadValue(s: string): Option<Sized> {
    var n := DigitCount(s);
    if n == |s| || s[n] != ':' then None else ReadSized(s[n + 1..], Value(s[..n]))
  }

  function ReadField(s: string): (r: Option<Read>)
    ensures r.Some? ==> |r.value.rest| < |s|
  {
    var e := IndexOf(s, '=');
    if e == |s| then None
    else
      var value := ReadValue(s[e + 1..]);
      if value.None? then None
      else if |value.value.rest| >= |s| then None
      else Some(Read(Entry(s[..e], value.value.value), value.value.rest))
  }

  function ReadFields(s: string): Option<seq<Entry>>
    decreases |s|
  {
    if s == "" then Some([])
    else
      var first := ReadField(s);
      if first.None? then None
      else
        var rest := ReadFields(first.value.rest);
        if rest.None? then None else Some([first.value.field] + rest.value)
  }

  lemma {:induction false} CharsForExact(value: string, rest: string)
    ensures CharsFor(value + rest, ByteLength(value)) == Some(|value|)
  {
    if value != "" {
      CharsForExact(value[1..], rest);
      assert (value + rest)[1..] == value[1..] + rest;
    }
  }

  lemma ReadSizedBack(value: string, rest: string)
    ensures ReadSized(value + (";" + rest), ByteLength(value)) == Some(Sized(value, rest))
  {
    var s := value + (";" + rest);
    CharsForExact(value, ";" + rest);
    assert s[..|value|] == value && s[|value|] == ';' && s[|value| + 1..] == rest;
  }

  lemma ReadValueBack(digits: string, value: string, rest: string)
    requires digits == Numeral(ByteLength(value))
    ensures ReadValue(digits + (":" + (value + (";" + rest)))) == Some(Sized(value, rest))
  {
    var tail := value + (";" + rest);
    var s := digits + (":" + tail);
    DigitCountStops(digits, ":" + tail);
    NumeralValue(ByteLength(value));
    ReadSizedBack(value, rest);
    assert s[..|digits|] == digits && s[|digits|] == ':' && s[|digits| + 1..] == tail;
  }

  lemma {:induction false} IndexOfStops(name: string, c: char, rest: string)
    requires c !in name
    ensures IndexOf(name + ([c] + rest), c) == |name|
  {
    if name != "" {
      assert name[0] in name;
      IndexOfStops(name[1..], c, rest);
      assert (name + ([c] + rest))[1..] == name[1..] + ([c] + rest);
    }
  }

  lemma FieldParts(name: string, digits: string, value: string, rest: string)
    ensures var s := (name + ("=" + (digits + (":" + (value + ";"))))) + rest;
      var tail := digits + (":" + (value + (";" + rest)));
      s == name + (['='] + tail) && s[..|name|] == name && s[|name| + 1..] == tail
  {}

  /** A field is read back whole, whatever follows it. */
  lemma ReadFieldBack(field: Entry, rest: string)
    requires '=' !in field.name
    ensures ReadField(Field(field) + rest) == Some(Read(field, rest))
  {
    var digits := Numeral(ByteLength(field.value));
    var tail := digits + (":" + (field.value + (";" + rest)));
    FieldParts(field.name, digits, field.value, rest);
    IndexOfStops(field.name, '=', tail);
    ReadValueBack(Numeral(ByteLength(field.value)), field.value, rest);
  }

  predicate PlainNames(fields: seq<Entry>) { forall i | 0 <= i < |fields| :: '=' !in fields[i].name }

  lemma ReadStep(s: string, field: Entry, rest: string, more: seq<Entry>)
    requires s != "" && ReadField(s) == Some(Read(field, rest)) && ReadFields(rest) == Some(more)
    ensures ReadFields(s) == Some([field] + more)
  {}

  lemma {:induction false} ReadFieldsBack(fields: seq<Entry>)
    requires PlainNames(fields)
    ensures ReadFields(Fields(fields)) == Some(fields)
  {
    if fields != [] {
      var rest := Fields(fields[1..]);
      ReadFieldBack(fields[0], rest);
      ReadFieldsBack(fields[1..]);
      ReadStep(Field(fields[0]) + rest, fields[0], rest, fields[1..]);
      assert [fields[0]] + fields[1..] == fields;
    }
  }

  function DomainNamed(name: string): Option<Domain> {
    if name == "rust_compiler" then Some(RustCompiler)
    else if name == "cargo_test" then Some(CargoTest)
    else if name == "test_run" then Some(TestRun)
    else if name == "registered_tool" then Some(RegisteredTool)
    else None
  }

  function CapabilityNamed(name: string): Option<Capability> {
    if name == "exact" then Some(Exact) else if name == "compatible_only" then Some(CompatibleOnly) else None
  }

  function Optional(value: string): Option<string> { if value == "" then None else Some(value) }

  function ReadComponents(fields: seq<Entry>): seq<Entry> {
    seq(|fields|, i requires 0 <= i < |fields| =>
      Entry(if |fields[i].name| >= 10 then fields[i].name[10..] else "", fields[i].value))
  }

  /** What the fields say. */
  function Interpret(f: seq<Entry>): Option<Identity> {
    if |f| < 10 then None
    else
      var domain, capability := DomainNamed(f[0].value), CapabilityNamed(f[1].value);
      if domain.None? || capability.None? then None
      else Some(Identity(domain.value, capability.value, ReadComponents(f[10..]), f[2].value, f[3].value,
        Scope(f[4].value, Optional(f[5].value), f[6].value, Optional(f[7].value), Optional(f[8].value),
              Optional(f[9].value))))
  }

  /** The reader: header, fields, and what the fields say. */
  function Decode(s: string): Option<Identity> {
    var body := StripPrefix(s, HEADER);
    if body.None? then None
    else
      var fields := ReadFields(body.value);
      if fields.None? then None else Interpret(fields.value)
  }

  /** No optional part is present but empty, and no component name holds the sign that ends a name. */
  predicate Encodable(id: Identity) {
    && id.scope.language != Some("") && id.scope.target != Some("") && id.scope.path != Some("")
      && id.scope.symbolKey != Some("")
    && forall i | 0 <= i < |id.components| :: '=' !in id.components[i].name
  }

  lemma ValidIsEncodable(id: Identity)
    requires Valid(id)
    ensures Encodable(id)
  {
    assert TrimStart("") == "" && TrimEnd("") == "";
    forall i | 0 <= i < |id.components| ensures '=' !in id.components[i].name {
      assert ComponentNameOk(id.components[i].name);
    }
  }

  lemma ComponentsBack(components: seq<Entry>)
    ensures ReadComponents(ComponentFields(components)) == components
  {
    forall i | 0 <= i < |components| ensures ReadComponents(ComponentFields(components))[i] == components[i] {
      assert ("component." + components[i].name)[10..] == components[i].name;
    }
  }

  lemma FixedNamesPlain(id: Identity)
    ensures PlainNames(FixedFields(id))
  {
    PlainLiterals();
  }

  lemma PlainLiterals()
    ensures '=' !in "domain" && '=' !in "identity_capability" && '=' !in "normalizer_id" && '=' !in "normalizer_version"
    ensures '=' !in "workspace_id" && '=' !in "language" && '=' !in "tool" && '=' !in "target" && '=' !in "path"
    ensures '=' !in "symbol_key"
  {}

  lemma ComponentNamesPlain(components: seq<Entry>)
    requires PlainNames(components)
    ensures PlainNames(ComponentFields(components))
  {
    var lead := "component.";
    assert '=' !in lead;
    assert forall i | 0 <= i < |components| :: ComponentFields(components)[i].name == lead + components[i].name;
  }

  lemma PlainNamesJoin(a: seq<Entry>, b: seq<Entry>)
    requires PlainNames(a) && PlainNames(b)
    ensures PlainNames(a + b)
  {}

  lemma NamesBack(domain: Domain, capability: Capability)
    ensures DomainNamed(DomainName(domain)) == Some(domain)
    ensures CapabilityNamed(CapabilityName(capability)) == Some(capability)
  {}

  lemma InterpretBack(id: Identity)
    requires Encodable(id)
    ensures Interpret(AllFields(id)) == Some(id)
  {
    var f, c := FixedFields(id), ComponentFields(id.components);
    var all := f + c;
    assert forall i | 0 <= i < 10 :: all[i] == f[i];
    assert all[10..] == c;
    NamesBack(id.domain, id.capability);
    ComponentsBack(id.components);
  }

  /** Everything that identifies a failure can be read back from its encoding. */
  lemma DecodeEncoding(id: Identity)
    requires Encodable(id)
    ensures Decode(Encoding(id)) == Some(id)
  {
    var fields := AllFields(id);
    FixedNamesPlain(id);
    ComponentNamesPlain(id.components);
    PlainNamesJoin(FixedFields(id), ComponentFields(id.components));
    ReadFieldsBack(fields);
    InterpretBack(id);
    StripHeader(HEADER, Fields(fields));
  }

  lemma StripHeader(header: string, body: string)
    ensures StripPrefix(header + body, header) == Some(body)
  {}

  /** Signatures that were accepted have the same encoding exactly when they are the same. */
  lemma EncodingIdentifies(a: Identity, b: Identity)
    requires Valid(a) && Valid(b)
    ensures Encoding(a) == Encoding(b) <==> a == b
  {
    ValidIsEncodable(a);
    ValidIsEncodable(b);
    DecodeEncoding(a);
    DecodeEncoding(b);
  }

  /** So equal keys mean equal failures, if the hash tells encodings apart. */
  lemma KeyIdentifies(a: Identity, b: Identity, hash: string -> string)
    requires Valid(a) && Valid(b) && hash(Encoding(a)) == hash(Encoding(b))
    requires forall s, t :: hash(s) == hash(t) ==> s == t
    ensures a == b
  {
    EncodingIdentifies(a, b);
  }

  /** The checks are needed: an absent part and an empty one are encoded alike. */
  lemma EmptyPartsCollide(id: Identity)
    requires id.scope.language.None?
    ensures Encoding(id) == Encoding(id.(scope := id.scope.(language := Some(""))))
  {
    assert FixedFields(id) == FixedFields(id.(scope := id.scope.(language := Some(""))));
  }

  // ---------- The entries as a map ----------

  ghost function AsMap(entries: seq<Entry>): map<string, string> {
    if entries == [] then map[]
    else AsMap(entries[..|entries| - 1])[entries[|entries| - 1].name := entries[|entries| - 1].value]
  }

  lemma {:induction false} AsMapHas(entries: seq<Entry>)
    requires KeyOrdered(entries)
    ensures forall k :: k in AsMap(entries) <==> k in Names(entries)
    ensures forall i | 0 <= i < |entries| :: AsMap(entries)[entries[i].name] == entries[i].value
  {
    if entries != [] {
      var n := |entries| - 1;
      AsMapHas(entries[..n]);
      assert Names(entries) == Names(entries[..n]) + [entries[n].name];
      forall i | 0 <= i < n ensures entries[i].name != entries[n].name && entries[..n][i] == entries[i] {
        assert Less(Names(entries)[i], Names(entries)[n]);
        LessIrreflexive(entries[n].name);
      }
    }
  }

  /** Held in key order, equal maps are equal lists, so the encoding does not depend on how a map was built. */
  lemma SameMapSameEntries(a: seq<Entry>, b: seq<Entry>)
    requires KeyOrdered(a) && KeyOrdered(b) && AsMap(a) == AsMap(b)
    ensures a == b
  {
    AsMapHas(a);
    AsMapHas(b);
    SortedUnique(Names(a), Names(b));
    forall i | 0 <= i < |a| ensures a[i] == b[i] {
      assert Names(a)[i] == Names(b)[i];
    }
  }
}
