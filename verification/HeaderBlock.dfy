/** The uncompressed name/value header block: a count, then length-prefixed names and NUL-joined values. */
module HeaderBlock {
  import opened Octets
  import opened Frame

  // ---------------------------------------------------------------------------
  // What the http crate decides: which names and values exist
  // ---------------------------------------------------------------------------

  /** The two validity tables: a raw name's normal form if it is a legal name, and whether a value is legal. */
  datatype Http = Http(normalise: Bytes -> Option<Name>, validValue: Bytes -> bool)

  /** Normal forms are legal, stay as they are and are no longer than the raw name; no legal value contains NUL. */
  ghost predicate HttpLaw(http: Http) {
    && (forall raw :: http.normalise(raw).Some? ==>
          http.normalise(http.normalise(raw).value) == http.normalise(raw) && |http.normalise(raw).value| <= |raw|)
    && (forall v :: http.validValue(v) ==> NulFree(v))
  }

  predicate NulFree(v: Bytes) {
    forall i :: 0 <= i < |v| ==> v[i] != 0
  }

  /** The headers a HeaderMap can hold: normal names, each with a non-empty list of legal values. */
  ghost predicate HeadersOk(http: Http, h: HeaderMap) {
    forall n :: n in h ==> http.normalise(n) == Some(n) && |h[n]| > 0 && forall v :: v in h[n] ==> http.validValue(v)
  }

  // ---------------------------------------------------------------------------
  // Multimaps as sequences of (name, value) items
  // ---------------------------------------------------------------------------

  datatype Item = Item(name: Name, value: Value)

  function Init<T>(s: seq<T>): seq<T>
    requires |s| > 0
  {
    s[..|s| - 1]
  }

  function Last<T>(s: seq<T>): T
    requires |s| > 0
  {
    s[|s| - 1]
  }

  /** The values given for one name, in order. */
  function ValuesFor(items: seq<Item>, n: Name): (vs: seq<Value>)
    ensures vs == [] <==> forall i :: 0 <= i < |items| ==> items[i].name != n
  {
    if items == [] then []
    else if Last(items).name == n then ValuesFor(Init(items), n) + [Last(items).value]
    else ValuesFor(Init(items), n)
  }

  /** The multimap that appending the items one by one builds. */
  function Multimap(items: seq<Item>): (h: HeaderMap)
    ensures forall n :: n in h <==> ValuesFor(items, n) != []
    ensures forall n :: n in h ==> h[n] == ValuesFor(items, n)
  {
    map i | 0 <= i < |items| :: items[i].name := ValuesFor(items, items[i].name)
  }

  /** HeaderMap::append */
  function Append(h: HeaderMap, n: Name, v: Value): HeaderMap {
    h[n := (if n in h then h[n] else []) + [v]]
  }

  lemma MultimapIs(items: seq<Item>, h: HeaderMap)
    requires forall n :: ValuesFor(items, n) == ValuesIn(h, n)
    requires forall n :: n in h ==> |h[n]| > 0
    ensures Multimap(items) == h
  {
    forall n ensures n in Multimap(items) <==> n in h {
      assert ValuesFor(items, n) == ValuesIn(h, n);
    }
  }

  /** HeaderMap::get_all */
  function ValuesIn(h: HeaderMap, n: Name): seq<Value> {
    if n in h then h[n] else []
  }

  lemma ValuesForAppend(items: seq<Item>, n: Name, v: Value, m: Name)
    ensures ValuesFor(items + [Item(n, v)], m) == ValuesFor(items, m) + if m == n then [v] else []
  {
    assert Init(items + [Item(n, v)]) == items;
  }

  lemma MultimapAppend(items: seq<Item>, n: Name, v: Value)
    ensures Multimap(items + [Item(n, v)]) == Append(Multimap(items), n, v)
  {
    var h := Append(Multimap(items), n, v);
    forall m ensures ValuesFor(items + [Item(n, v)], m) == ValuesIn(h, m) {
      ValuesForAppend(items, n, v, m);
    }
    MultimapIs(items + [Item(n, v)], h);
  }

  lemma {:induction false} ValuesForConcat(a: seq<Item>, b: seq<Item>, n: Name)
    ensures ValuesFor(a + b, n) == ValuesFor(a, n) + ValuesFor(b, n)
    decreases |b|
  {
    if b == [] {
      assert a + b == a;
    } else {
      assert Init(a + b) == a + Init(b);
      ValuesForConcat(a, Init(b), n);
    }
  }

  // ---------------------------------------------------------------------------
  // Joining values with NUL and splitting them again
  // ---------------------------------------------------------------------------

  function Join(vs: seq<Value>): Bytes
    requires |vs| > 0
  {
    if |vs| == 1 then vs[0] else Join(Init(vs)) + [0] + Last(vs)
  }

  function ExtendLast(parts: seq<Bytes>, v: Bytes): seq<Bytes>
    requires |parts| > 0
  {
    Init(parts) + [Last(parts) + v]
  }

  /** `split(|&b| b == 0)` */
  function Split(b: Bytes): (parts: seq<Bytes>)
    ensures |parts| > 0
  {
    if b == [] then [[]]
    else
      var parts := Split(Init(b));
      if Last(b) == 0 then parts + [[]] else ExtendLast(parts, [Last(b)])
  }

  lemma SplitNul(b: Bytes)
    ensures Split(b + [0]) == Split(b) + [[]]
  {
    assert Init(b + [0]) == b;
  }

  lemma SplitByte(b: Bytes, x: u8)
    requires x != 0
    ensures Split(b + [x]) == ExtendLast(Split(b), [x])
  {
    assert Init(b + [x]) == b;
  }

  lemma {:induction false} SplitExtend(b: Bytes, v: Bytes)
    requires NulFree(v)
    ensures Split(b + v) == ExtendLast(Split(b), v)
    decreases |v|
  {
    hide Split;
    if v == [] {
      assert b + v == b;
      assert Last(Split(b)) + v == Last(Split(b));
    } else {
      SplitExtend(b, Init(v));
      SplitExtendByte(b, Init(v), Last(v));
      assert Init(v) + [Last(v)] == v;
    }
  }

  lemma SplitExtendByte(b: Bytes, v: Bytes, x: u8)
    requires x != 0 && Split(b + v) == ExtendLast(Split(b), v)
    ensures Split(b + (v + [x])) == ExtendLast(Split(b), v + [x])
  {
    SplitByte(b + v, x);
    assert b + v + [x] == b + (v + [x]);
    ExtendTwice(Split(b), v, [x]);
  }

  lemma ExtendTwice(parts: seq<Bytes>, v: Bytes, w: Bytes)
    requires |parts| > 0
    ensures ExtendLast(ExtendLast(parts, v), w) == ExtendLast(parts, v + w)
  {
    assert Last(parts) + v + w == Last(parts) + (v + w);
  }

  lemma JoinAppend(vs: seq<Value>, v: Value)
    requires |vs| > 0
    ensures Join(vs + [v]) == Join(vs) + [0] + v
  {
    assert Init(vs + [v]) == vs;
  }

  lemma {:induction false} SplitJoin(vs: seq<Value>)
    requires |vs| > 0 && forall i :: 0 <= i < |vs| ==> NulFree(vs[i])
    ensures Split(Join(vs)) == vs
    decreases |vs|
  {
    if |vs| == 1 {
      SplitExtend([], vs[0]);
      assert [] + vs[0] == vs[0];
    } else {
      SplitJoin(Init(vs));
      SplitAppend(Init(vs), Last(vs));
    }
  }

  lemma SplitAppend(vs: seq<Value>, v: Value)
    requires |vs| > 0 && NulFree(v) && Split(Join(vs)) == vs
    ensures Split(Join(vs) + [0] + v) == vs + [v]
  {
    SplitNul(Join(vs));
    SplitExtend(Join(vs) + [0], v);
    assert Init(vs + [[]]) == vs && [] + v == v;
  }

  lemma {:induction false} JoinSplit(b: Bytes)
    ensures Join(Split(b)) == b
    decreases |b|
  {
    if b != [] {
      var parts := Split(Init(b));
      JoinSplit(Init(b));
      assert Init(b) + [Last(b)] == b;
      if Last(b) == 0 {
        JoinAppend(parts, []);
      } else {
        JoinExtendLast(parts, Last(b));
      }
    }
  }

  lemma JoinExtendLast(vs: seq<Value>, x: u8)
    requires |vs| > 0
    ensures Join(ExtendLast(vs, [x])) == Join(vs) + [x]
  {
    var longer := ExtendLast(vs, [x]);
    assert Last(longer) == Last(vs) + [x];
    if |vs| > 1 {
      assert Init(longer) == Init(vs);
      assert Join(Init(vs)) + [0] + (Last(vs) + [x]) == Join(Init(vs)) + [0] + Last(vs) + [x];
    }
  }

  // ---------------------------------------------------------------------------
  // Name order, and the BTreeMap as an ascending sequence of entries
  // ---------------------------------------------------------------------------

  /** Byte-wise lexicographic order, the order of the library's string keys. */
  predicate Less(a: Name, b: Name) {
    b != [] && (a == [] || a[0] < b[0] || (a[0] == b[0] && Less(a[1..], b[1..])))
  }

  lemma {:induction false} LessTotal(a: Name, b: Name)
    ensures Less(a, b) || a == b || Less(b, a)
    ensures !(Less(a, b) && Less(b, a)) && !(a == b && Less(a, b))
    decreases |a|
  {
    if a != [] && b != [] {
      LessTotal(a[1..], b[1..]);
      assert a == [a[0]] + a[1..] && b == [b[0]] + b[1..];
    }
  }

  lemma {:induction false} LessTransitive(a: Name, b: Name, c: Name)
    requires Less(a, b) && Less(b, c)
    ensures Less(a, c)
    decreases |a|
  {
    if a != [] && a[0] == b[0] == c[0] {
      LessTransitive(a[1..], b[1..], c[1..]);
    }
  }

  datatype Entry = Entry(name: Name, value: Bytes)

  type Tree = seq<Entry>

  predicate Ascending(t: Tree) {
    forall i, j :: 0 <= i < j < |t| ==> Less(t[i].name, t[j].name)
  }

  /** The value stored under a name. */
  function Find(t: Tree, n: Name): Option<Bytes> {
    if t == [] then None else if t[0].name == n then Some(t[0].value) else Find(t[1..], n)
  }

  /** `entry(name).and_modify(push NUL and value).or_insert(value)` */
  function Upsert(t: Tree, n: Name, v: Value): Tree {
    if t == [] then [Entry(n, v)]
    else if t[0].name == n then [Entry(n, t[0].value + [0] + v)] + t[1..]
    else if Less(n, t[0].name) then [Entry(n, v)] + t
    else [t[0]] + Upsert(t[1..], n, v)
  }

  lemma {:induction false} UpsertNames(t: Tree, n: Name, v: Value, e: Entry)
    requires e in Upsert(t, n, v)
    ensures e.name == n || exists i :: 0 <= i < |t| && t[i].name == e.name
    decreases |t|
  {
    if t != [] && t[0].name != n && !Less(n, t[0].name) && e != t[0] {
      UpsertNames(t[1..], n, v, e);
    }
  }

  lemma {:induction false} UpsertAscending(t: Tree, n: Name, v: Value)
    requires Ascending(t)
    ensures Ascending(Upsert(t, n, v))
    decreases |t|
  {
    if t != [] {
      LessTotal(t[0].name, n);
      if t[0].name == n {
      } else if Less(n, t[0].name) {
        forall i | 0 <= i < |t| ensures Less(n, t[i].name) {
          if i > 0 { LessTransitive(n, t[0].name, t[i].name); }
        }
      } else {
        var rest := Upsert(t[1..], n, v);
        UpsertAscending(t[1..], n, v);
        forall j | 0 <= j < |rest| ensures Less(t[0].name, rest[j].name) {
          UpsertNames(t[1..], n, v, rest[j]);
        }
      }
    }
  }

  lemma {:induction false} BelowAll(t: Tree, n: Name)
    requires Ascending(t) && (t == [] || Less(n, t[0].name))
    ensures Find(t, n) == None
    decreases |t|
  {
    if t != [] {
      LessTotal(n, t[0].name);
      if |t| > 1 { LessTransitive(n, t[0].name, t[1].name); }
      BelowAll(t[1..], n);
    }
  }

  lemma HeadOnce(t: Tree)
    requires Ascending(t) && t != []
    ensures Find(t[1..], t[0].name) == None
  {
    BelowAll(t[1..], t[0].name);
  }

  lemma {:induction false} UpsertFind(t: Tree, n: Name, v: Value, m: Name)
    requires Ascending(t)
    ensures Find(Upsert(t, n, v), m) ==
      if m != n then Find(t, m) else if Find(t, n).None? then Some(v) else Some(Find(t, n).value + [0] + v)
    decreases |t|
  {
    if t != [] {
      LessTotal(t[0].name, n);
      if t[0].name == n {
        assert Upsert(t, n, v)[1..] == t[1..];
      } else if Less(n, t[0].name) {
        assert Upsert(t, n, v)[1..] == t;
        BelowAll(t, n);
      } else {
        assert Upsert(t, n, v)[1..] == Upsert(t[1..], n, v);
        UpsertFind(t[1..], n, v, m);
      }
    }
  }

  /** An ascending tree is determined by what it stores under each name. */
  lemma {:induction false} AscendingUnique(s: Tree, t: Tree)
    requires Ascending(s) && Ascending(t) && forall n :: Find(s, n) == Find(t, n)
    ensures s == t
    decreases |s|
  {
    var n := if s != [] then s[0].name else if t != [] then t[0].name else [];
    assert Find(s, n) == Find(t, n);
    if s != [] && t != [] {
      SameHead(s, t);
      HeadOnce(s);
      HeadOnce(t);
      forall n ensures Find(s[1..], n) == Find(t[1..], n) {
        assert Find(s, n) == Find(t, n);
      }
      AscendingUnique(s[1..], t[1..]);
      assert s == [s[0]] + s[1..] && t == [t[0]] + t[1..];
    }
  }

  lemma SameHead(s: Tree, t: Tree)
    requires Ascending(s) && Ascending(t) && s != [] && t != [] && forall n :: Find(s, n) == Find(t, n)
    ensures s[0] == t[0]
  {
    assert Find(s, s[0].name) == Find(t, s[0].name) && Find(s, t[0].name) == Find(t, t[0].name);
    LessTotal(s[0].name, t[0].name);
    if Less(s[0].name, t[0].name) { BelowAll(t, s[0].name); }
    if Less(t[0].name, s[0].name) { BelowAll(s, t[0].name); }
  }

  // ---------------------------------------------------------------------------
  // Encoding
  // ---------------------------------------------------------------------------

  /** What the encoder's BTreeMap holds after the items of an iteration have gone in. */
  function Collect(items: seq<Item>): Tree {
    if items == [] then [] else Upsert(Collect(Init(items)), Last(items).name, Last(items).value)
  }

  /** What the tree stores for a name that was given the values vs. */
  function Joined(vs: seq<Value>): Option<Bytes> {
    if vs == [] then None else Some(Join(vs))
  }

  lemma {:induction false} CollectAscending(items: seq<Item>)
    ensures Ascending(Collect(items))
    decreases |items|
  {
    if items != [] {
      CollectAscending(Init(items));
      UpsertAscending(Collect(Init(items)), Last(items).name, Last(items).value);
    }
  }

  lemma {:induction false} CollectFind(items: seq<Item>, m: Name)
    ensures Find(Collect(items), m) == Joined(ValuesFor(items, m))
    decreases |items|
  {
    if items != [] {
      var before, n, v := Init(items), Last(items).name, Last(items).value;
      CollectFind(before, m);
      CollectAscending(before);
      UpsertFind(Collect(before), n, v, m);
      if m == n && ValuesFor(before, n) != [] {
        JoinAppend(ValuesFor(before, n), v);
      }
    }
  }

  /** Canonical form: the tree depends on the multimap only, not on the order in which its names are iterated. */
  lemma CanonicalForm(a: seq<Item>, b: seq<Item>)
    requires Multimap(a) == Multimap(b)
    ensures Collect(a) == Collect(b) && Ascending(Collect(a))
  {
    CollectAscending(a);
    CollectAscending(b);
    forall n ensures Find(Collect(a), n) == Find(Collect(b), n) {
      CollectFind(a, n);
      CollectFind(b, n);
      assert n in Multimap(a) <==> n in Multimap(b);
    }
    AscendingUnique(Collect(a), Collect(b));
  }

  /** A length-prefixed field; the length is cut to 32 bits. */
  function Field(b: Bytes): Bytes {
    ToBytes(AsU32(|b|)) + b
  }

  function Entries(t: Tree): (b: Bytes)
  {
    if t == [] then [] else Field(t[0].name) + Field(t[0].value) + Entries(t[1..])
  }

  function Serialize(t: Tree): Bytes {
    ToBytes(AsU32(|t|)) + Entries(t)
  }

  /** Every header map has an iteration. */
  lemma {:induction false} IterationExists(h: HeaderMap)
    requires forall n :: n in h ==> |h[n]| > 0
    ensures exists items :: Multimap(items) == h
    decreases h.Keys
  {
    if h == map[] {
      MultimapNothing();
    } else {
      var n :| n in h;
      IterationExists(h - {n});
      var before :| Multimap(before) == h - {n};
      IterationStep(before, n, h);
    }
  }

  lemma IterationStep(before: seq<Item>, n: Name, h: HeaderMap)
    requires n in h && Multimap(before) == h - {n} && forall m :: m in h ==> |h[m]| > 0
    ensures Multimap(before + Tag(n, h[n])) == h
  {
    hide ValuesFor, Tag;
    forall m ensures ValuesFor(before + Tag(n, h[n]), m) == ValuesIn(h, m) {
      ValuesForConcat(before, Tag(n, h[n]), m);
      ValuesForTag(n, h[n], m);
      assert m in Multimap(before) <==> m in h && m != n;
    }
    MultimapIs(before + Tag(n, h[n]), h);
  }

  /** The tree of a header map; by CanonicalForm the choice of iteration does not matter. */
  ghost function Canonical(h: HeaderMap): (t: Tree)
    requires forall n :: n in h ==> |h[n]| > 0
  {
    IterationExists(h);
    var items :| Multimap(items) == h;
    Collect(items)
  }

  lemma CanonicalFind(h: HeaderMap)
    requires forall n :: n in h ==> |h[n]| > 0
    ensures Ascending(Canonical(h))
    ensures forall n :: Find(Canonical(h), n) == Joined(ValuesIn(h, n))
  {
    IterationExists(h);
    var items :| Multimap(items) == h && Canonical(h) == Collect(items);
    CollectAscending(items);
    forall n ensures Find(Canonical(h), n) == Joined(ValuesIn(h, n)) {
      CollectFind(items, n);
      assert n in Multimap(items) <==> n in h;
    }
  }

  ghost function EncodeBlock(h: HeaderMap): Bytes
    requires forall n :: n in h ==> |h[n]| > 0
  {
    Serialize(Canonical(h))
  }

  lemma CollectIsCanonical(items: seq<Item>)
    ensures Collect(items) == Canonical(Multimap(items))
  {
    hide Collect;
    IterationExists(Multimap(items));
    var other :| Multimap(other) == Multimap(items) && Canonical(Multimap(items)) == Collect(other);
    CanonicalForm(items, other);
  }

  // ---------------------------------------------------------------------------
  // Parsing
  // ---------------------------------------------------------------------------

  /** The items one entry stands for. */
  function Tag(n: Name, parts: seq<Value>): (items: seq<Item>)
    ensures |items| == |parts|
    ensures forall i :: 0 <= i < |parts| ==> items[i] == Item(n, parts[i])
  {
    if parts == [] then [] else Tag(n, Init(parts)) + [Item(n, Last(parts))]
  }

  lemma {:induction false} ValuesForTag(n: Name, parts: seq<Value>, m: Name)
    ensures ValuesFor(Tag(n, parts), m) == if m == n then parts else []
    decreases |parts|
  {
    if parts != [] {
      assert Init(Tag(n, parts)) == Tag(n, Init(parts));
      ValuesForTag(n, Init(parts), m);
    }
  }

  /** A length-prefixed field at the front of the input, and what follows it. */
  function TakeField(b: Bytes): Option<(Bytes, Bytes)> {
    if |b| < 4 then None
    else if |b| - 4 < FromBytes(b) then None
    else Some((b[4..4 + FromBytes(b)], b[4 + FromBytes(b)..]))
  }

  /** One parsed entry: its normal name, its values, and the input after it. */
  datatype Parsed = Parsed(name: Name, values: seq<Value>, rest: Bytes)

  /** The next entry, or nothing if a field is truncated or a name or value is illegal. */
  function ParseEntry(http: Http, b: Bytes): Option<Parsed> {
    match TakeField(b)
    case None => None
    case Some((rawName, b1)) =>
      match TakeField(b1)
      case None => None
      case Some((rawValue, b2)) => CheckEntry(http, rawName, rawValue, b2)
  }

  function CheckEntry(http: Http, rawName: Bytes, rawValue: Bytes, rest: Bytes): Option<Parsed> {
    match http.normalise(rawName)
    case None => None
    case Some(name) =>
      if forall v :: v in Split(rawValue) ==> http.validValue(v) then Some(Parsed(name, Split(rawValue), rest))
      else None
  }

  function Prepend(items: seq<Item>, rest: Option<seq<Item>>): Option<seq<Item>> {
    match rest case None => None case Some(more) => Some(items + more)
  }

  /** The items of the next `count` entries. */
  function ParseEntries(http: Http, b: Bytes, count: nat): Option<seq<Item>> {
    if count == 0 then Some([])
    else match ParseEntry(http, b)
      case None => None
      case Some(e) => Prepend(Tag(e.name, e.values), ParseEntries(http, e.rest, count - 1))
  }

  function ParseBlock(http: Http, raw: Bytes): Result<HeaderMap> {
    if |raw| < 4 then Err(Protocol)
    else match ParseEntries(http, raw[4..], FromBytes(raw))
      case None => Err(Protocol)
      case Some(items) => Ok(Multimap(items))
  }

  lemma TakeFieldOf(b: Bytes, tail: Bytes)
    requires |b| < 0x1_0000_0000
    ensures TakeField(Field(b) + tail) == Some((b, tail))
  {
    FromToBytes(|b|, b + tail);
    ConcatAssoc(ToBytes(|b|), b, tail);
    TakeAfterLength(ToBytes(|b|), b, tail);
  }

  lemma TakeAfterLength(length: Bytes, b: Bytes, tail: Bytes)
    requires |length| == 4 && FromBytes(length + (b + tail)) == |b|
    ensures TakeField(length + (b + tail)) == Some((b, tail))
  {
    hide FromBytes;
    var all := length + (b + tail);
    assert all[4..] == b + tail;
    assert all[4..4 + |b|] == b;
    assert all[4 + |b|..] == tail;
  }

  /** Every entry's fields fit their 32-bit lengths and its values are legal. */
  ghost predicate TreeOk(http: Http, t: Tree) {
    forall e :: e in t ==>
      && |e.name| < 0x1_0000_0000 && |e.value| < 0x1_0000_0000
      && http.normalise(e.name) == Some(e.name)
      && forall v :: v in Split(e.value) ==> http.validValue(v)
  }

  function Flatten(t: Tree): seq<Item> {
    if t == [] then [] else Tag(t[0].name, Split(t[0].value)) + Flatten(t[1..])
  }

  lemma ParseEncodedEntry(http: Http, e: Entry, rest: Bytes)
    requires TreeOk(http, [e])
    ensures ParseEntry(http, Field(e.name) + Field(e.value) + rest) == Some(Parsed(e.name, Split(e.value), rest))
  {
    hide TakeField, Field, Split;
    assert e in [e];
    assert Field(e.name) + Field(e.value) + rest == Field(e.name) + (Field(e.value) + rest);
    TakeFieldOf(e.name, Field(e.value) + rest);
    TakeFieldOf(e.value, rest);
  }

  lemma {:induction false} ParseEncodedEntries(http: Http, t: Tree, tail: Bytes)
    requires TreeOk(http, t)
    ensures ParseEntries(http, Entries(t) + tail, |t|) == Some(Flatten(t))
    decreases |t|
  {
    if t != [] {
      hide ParseEntry, Field, Split, Tag;
      ParseEncodedEntry(http, t[0], Entries(t[1..]) + tail);
      ParseEncodedEntries(http, t[1..], tail);
      ConcatAssoc(Field(t[0].name) + Field(t[0].value), Entries(t[1..]), tail);
    }
  }

  lemma ParseCounted(http: Http, n: u32, body: Bytes, items: seq<Item>)
    requires ParseEntries(http, body, n) == Some(items)
    ensures ParseBlock(http, ToBytes(n) + body) == Ok(Multimap(items))
  {
    hide ParseEntries;
    FromToBytes(n, body);
    assert (ToBytes(n) + body)[4..] == body;
  }

  lemma ParseSerialized(http: Http, t: Tree, tail: Bytes)
    requires TreeOk(http, t) && |t| < 0x1_0000_0000
    ensures ParseBlock(http, Serialize(t) + tail) == Ok(Multimap(Flatten(t)))
  {
    hide ParseEntries, ToBytes, Entries, ParseBlock, Multimap, TreeOk, Flatten;
    var body := Entries(t) + tail;
    ParseEncodedEntries(http, t, tail);
    ParseCounted(http, |t|, body, Flatten(t));
    ConcatAssoc(ToBytes(|t|), Entries(t), tail);
  }

  lemma {:induction false} FlattenValues(t: Tree, n: Name)
    requires Ascending(t)
    ensures ValuesFor(Flatten(t), n) == match Find(t, n) case None => [] case Some(b) => Split(b)
    decreases |t|
  {
    if t != [] {
      HeadOnce(t);
      FlattenValues(t[1..], n);
      ValuesForConcat(Tag(t[0].name, Split(t[0].value)), Flatten(t[1..]), n);
      ValuesForTag(t[0].name, Split(t[0].value), n);
    }
  }

  lemma {:induction false} EntryOf(t: Tree, e: Entry)
    requires Ascending(t) && e in t
    ensures Find(t, e.name) == Some(e.value)
    decreases |t|
  {
    if e != t[0] {
      assert e in t[1..];
      EntryOf(t[1..], e);
      HeadOnce(t);
    }
  }

  lemma JoinedValuesSplit(http: Http, h: HeaderMap, n: Name)
    requires HttpLaw(http) && HeadersOk(http, h) && n in h
    ensures Split(Join(h[n])) == h[n]
  {
    forall i | 0 <= i < |h[n]| ensures NulFree(h[n][i]) {
      assert http.validValue(h[n][i]);
    }
    SplitJoin(h[n]);
  }

  /** The encoder's 32-bit count and lengths are those of the header map. */
  ghost predicate Encodable(h: HeaderMap) {
    && |h| < 0x1_0000_0000
    && forall n :: n in h ==> IsShort(n, h[n])
  }

  /** A name and its joined values fit their 32-bit lengths. */
  predicate IsShort(n: Name, vs: seq<Value>) {
    |n| < 0x1_0000_0000 && (vs != [] ==> |Join(vs)| < 0x1_0000_0000)
  }

  lemma {:induction false} EntriesLength(t: Tree)
    ensures 8 * |t| <= |Entries(t)|
    ensures forall e :: e in t ==> |e.name| + |e.value| <= |Entries(t)|
    decreases |t|
  {
    if t != [] {
      EntriesLength(t[1..]);
    }
  }

  function NamesOf(t: Tree): set<Name> {
    set e | e in t :: e.name
  }

  lemma {:induction false} NamesCounted(t: Tree)
    requires Ascending(t)
    ensures |NamesOf(t)| == |t|
    ensures forall n :: n in NamesOf(t) <==> Find(t, n).Some?
    decreases |t|
  {
    if t != [] {
      NamesCounted(t[1..]);
      HeadOnce(t);
      assert t == [t[0]] + t[1..];
      assert NamesOf(t) == {t[0].name} + NamesOf(t[1..]);
    }
  }

  lemma CanonicalSize(h: HeaderMap)
    requires forall n :: n in h ==> |h[n]| > 0
    ensures |Canonical(h)| == |h|
    ensures forall e :: e in Canonical(h) ==> e.name in h && e.value == Join(h[e.name])
  {
    var t := Canonical(h);
    CanonicalFind(h);
    NamesCounted(t);
    assert NamesOf(t) == h.Keys;
    assert |h| == |h.Keys|;
    forall e | e in t ensures e.name in h && e.value == Join(h[e.name]) { EntryOf(t, e); }
  }

  /** A block of fewer than 2^32 bytes has no length to cut. */
  lemma ShortBlockIsEncodable(h: HeaderMap)
    requires (forall n :: n in h ==> |h[n]| > 0) && |EncodeBlock(h)| < 0x1_0000_0000
    ensures Encodable(h)
  {
    var t := Canonical(h);
    EntriesLength(t);
    CanonicalSize(h);
    CanonicalFind(h);
    NamesCounted(t);
    forall n | n in h ensures IsShort(n, h[n]) {
      assert n in NamesOf(t);
      var e :| e in t && e.name == n;
    }
  }

  /** Round trip: the block of an encodable header map parses back to it, whatever bytes follow. */
  lemma BlockRoundTrip(http: Http, h: HeaderMap, tail: Bytes)
    requires HttpLaw(http) && HeadersOk(http, h) && Encodable(h)
    ensures ParseBlock(http, EncodeBlock(h) + tail) == Ok(h)
  {
    var t := Canonical(h);
    CanonicalFind(h);
    CanonicalSize(h);
    CanonicalTreeOk(http, h);
    ParseSerialized(http, t, tail);
    forall n ensures ValuesFor(Flatten(t), n) == ValuesIn(h, n) {
      FlattenValues(t, n);
      if n in h { JoinedValuesSplit(http, h, n); }
    }
    MultimapIs(Flatten(t), h);
  }

  lemma CanonicalTreeOk(http: Http, h: HeaderMap)
    requires HttpLaw(http) && HeadersOk(http, h) && Encodable(h)
    ensures TreeOk(http, Canonical(h))
  {
    CanonicalSize(h);
    forall e | e in Canonical(h)
      ensures http.normalise(e.name) == Some(e.name)
      ensures forall v :: v in Split(e.value) ==> http.validValue(v)
    {
      JoinedValuesSplit(http, h, e.name);
    }
  }

  // ---------------------------------------------------------------------------
  // Blocks that do not come back
  // ---------------------------------------------------------------------------

  function ItemNames(items: seq<Item>): set<Name> {
    set i | i in items :: i.name
  }

  /** A parsed name and a parsed value field are shorter than 2^32 bytes. */
  lemma ParsedEntryShort(http: Http, b: Bytes)
    requires HttpLaw(http) && ParseEntry(http, b).Some?
    ensures var e := ParseEntry(http, b).value;
      IsShort(e.name, e.values) && |e.values| > 0
  {
    var b1 := TakeField(b).value.1;
    JoinSplit(TakeField(b1).value.0);
    assert |TakeField(b).value.0| == FromBytes(b) && |TakeField(b1).value.0| == FromBytes(b1);
  }

  lemma NamesAfterTag(n: Name, values: seq<Value>, rest: seq<Item>)
    requires |values| > 0
    ensures ItemNames(Tag(n, values) + rest) == {n} + ItemNames(rest)
  {
    var items := Tag(n, values) + rest;
    assert items[0].name == n && items[0] in items;
    forall i | i in rest ensures i in items
    { var k :| 0 <= k < |rest| && rest[k] == i; assert items[|values| + k] == i; }
  }

  lemma {:induction false} NoValuesFor(items: seq<Item>, n: Name)
    requires n !in ItemNames(items)
    ensures ValuesFor(items, n) == []
  {
    assert forall i :: 0 <= i < |items| ==> items[i] in items;
  }

  /** So many entries give no more names, and just so many only if every name and value field was short. */
  lemma {:induction false} EntriesBound(http: Http, b: Bytes, count: nat, items: seq<Item>)
    requires HttpLaw(http) && ParseEntries(http, b, count) == Some(items)
    ensures |ItemNames(items)| <= count
    ensures |ItemNames(items)| == count ==>
      forall n :: n in ItemNames(items) ==> IsShort(n, ValuesFor(items, n))
    decreases count
  {
    hide ParseEntries, ParseEntry, Tag, IsShort, ValuesFor, ItemNames;
    EntriesStep(http, b, count);
    if count == 0 {
      NoNames();
    } else {
      var e := ParseEntry(http, b).value;
      var rest := ParseEntries(http, e.rest, count - 1).value;
      ParsedEntryShort(http, b);
      EntriesBound(http, e.rest, count - 1, rest);
      NamesAfterTag(e.name, e.values, rest);
      if |ItemNames(items)| == count {
        assert ItemNames(items) == {e.name} + ItemNames(rest);
        assert e.name !in ItemNames(rest);
        NoValuesFor(rest, e.name);
        forall n | n in ItemNames(items) ensures IsShort(n, ValuesFor(items, n)) {
          ValuesForConcat(Tag(e.name, e.values), rest, n);
          ValuesForTag(e.name, e.values, n);
          assert ValuesFor(items, n) == if n == e.name then e.values + [] else [] + ValuesFor(rest, n);
          assert e.values + [] == e.values && [] + ValuesFor(rest, n) == ValuesFor(rest, n);
        }
      }
    }
  }

  lemma NoNames()
    ensures ItemNames([]) == {}
  {
  }

  lemma BlockCount(h: HeaderMap, tail: Bytes)
    requires forall n :: n in h ==> |h[n]| > 0
    ensures |EncodeBlock(h) + tail| >= 4 && FromBytes(EncodeBlock(h) + tail) == AsU32(|h|)
  {
    CanonicalSize(h);
    var t := Canonical(h);
    ConcatAssoc(ToBytes(AsU32(|t|)), Entries(t), tail);
    FromToBytes(AsU32(|t|), Entries(t) + tail);
  }

  /**
   * Exactly when a header map comes back: if and only if its count, its names and its joined values have exact 32-bit
   * lengths.
   */
  lemma BlockRoundTripExactly(http: Http, h: HeaderMap, tail: Bytes)
    requires HttpLaw(http) && HeadersOk(http, h)
    ensures ParseBlock(http, EncodeBlock(h) + tail) == Ok(h) <==> Encodable(h)
  {
    hide Encodable, ParseBlock, EncodeBlock;
    if Encodable(h) {
      BlockRoundTrip(http, h, tail);
    } else if ParseBlock(http, EncodeBlock(h) + tail) == Ok(h) {
      BlockCount(h, tail);
      ParsedCount(http, EncodeBlock(h) + tail, h);
    }
  }

  /** A header map parsed from a block with its own count, cut to 32 bits, is encodable. */
  lemma ParsedCount(http: Http, raw: Bytes, h: HeaderMap)
    requires HttpLaw(http) && ParseBlock(http, raw) == Ok(h) && FromBytes(raw) == AsU32(|h|)
    ensures Encodable(h)
  {
    hide ParseEntries, ItemNames, IsShort, FromBytes;
    var items := ParseEntries(http, raw[4..], FromBytes(raw)).value;
    EntriesBound(http, raw[4..], FromBytes(raw), items);
    MultimapNames(items);
    assert |h| == |h.Keys|;
  }

  lemma MultimapNames(items: seq<Item>)
    ensures Multimap(items).Keys == ItemNames(items)
  {
    forall n ensures n in Multimap(items) <==> n in ItemNames(items) {
      if n in ItemNames(items) { var i :| 0 <= i < |items| && items[i].name == n; }
    }
  }

  lemma TruncatedField(b: Bytes, tail: Bytes, n: nat)
    requires |b| < 0x1_0000_0000 && n < 4 + |b|
    ensures n <= |Field(b) + tail| && TakeField((Field(b) + tail)[..n]) == None
  {
    var all := Field(b) + tail;
    if n >= 4 {
      FromToBytes(|b|, all[4..n]);
      assert all[..n] == ToBytes(|b|) + all[4..n];
    }
  }

  lemma TruncatedEntry(http: Http, e: Entry, rest: Bytes, n: nat)
    requires |e.name| < 0x1_0000_0000 && |e.value| < 0x1_0000_0000 && n < 8 + |e.name| + |e.value|
    ensures n <= |Field(e.name) + Field(e.value) + rest|
    ensures ParseEntry(http, (Field(e.name) + Field(e.value) + rest)[..n]) == None
  {
    var start := 4 + |e.name|;
    var all := Field(e.name) + (Field(e.value) + rest);
    assert all == Field(e.name) + Field(e.value) + rest;
    hide TakeField;
    if n < start {
      TruncatedField(e.name, Field(e.value) + rest, n);
    } else {
      var part := (Field(e.value) + rest)[..n - start];
      assert all[..n] == Field(e.name) + part;
      TakeFieldOf(e.name, part);
      TruncatedField(e.value, rest, n - start);
    }
  }

  lemma {:induction false} TruncatedEntries(http: Http, t: Tree, n: nat)
    requires TreeOk(http, t) && n < |Entries(t)|
    ensures ParseEntries(http, Entries(t)[..n], |t|) == None
    decreases |t|
  {
    hide ParseEntry;
    var e, rest := t[0], Entries(t[1..]);
    var size := 8 + |e.name| + |e.value|;
    if n < size {
      TruncatedEntry(http, e, rest, n);
    } else {
      var part := rest[..n - size];
      assert Entries(t)[..n] == Field(e.name) + Field(e.value) + part;
      ParseEncodedEntry(http, e, part);
      TruncatedEntries(http, t[1..], n - size);
    }
  }

  /** A block cut anywhere is refused: no prefix of it passes for a smaller one. */
  lemma CutBlockIsRefused(http: Http, h: HeaderMap, n: nat)
    requires HttpLaw(http) && HeadersOk(http, h) && Encodable(h) && n < |EncodeBlock(h)|
    ensures ParseBlock(http, EncodeBlock(h)[..n]) == Err(Protocol)
  {
    hide ParseBlock, Serialize;
    CanonicalSize(h);
    CanonicalTreeOk(http, h);
    CutSerialized(http, Canonical(h), n);
  }

  lemma CutSerialized(http: Http, t: Tree, n: nat)
    requires TreeOk(http, t) && |t| < 0x1_0000_0000 && n < |Serialize(t)|
    ensures ParseBlock(http, Serialize(t)[..n]) == Err(Protocol)
  {
    hide ParseEntries, Entries, ToBytes, TreeOk;
    if n >= 4 {
      var raw, part := Serialize(t)[..n], Entries(t)[..n - 4];
      TruncatedEntries(http, t, n - 4);
      assert raw == ToBytes(|t|) + part;
      FromToBytes(|t|, part);
      hide FromBytes;
      assert raw[4..] == part;
    }
  }

  // ---------------------------------------------------------------------------
  // Arbitrary input: what parses is well formed, and its encoding is never longer
  // ---------------------------------------------------------------------------

  ghost predicate ItemsOk(http: Http, items: seq<Item>) {
    forall i :: 0 <= i < |items| ==>
      http.normalise(items[i].name) == Some(items[i].name) && http.validValue(items[i].value)
  }

  /** What a parsed entry satisfies, and how much input it took. */
  lemma ParsedEntryOk(http: Http, b: Bytes)
    requires HttpLaw(http) && ParseEntry(http, b).Some?
    ensures ItemsOk(http, Tag(ParseEntry(http, b).value.name, ParseEntry(http, b).value.values))
    ensures var e := ParseEntry(http, b).value;
      |e.values| > 0 && 8 + |e.name| + |Join(e.values)| + |e.rest| <= |b|
  {
    var rawValue := TakeField(TakeField(b).value.1).value.0;
    JoinSplit(rawValue);
    var e := ParseEntry(http, b).value;
    forall i | 0 <= i < |e.values| ensures http.validValue(e.values[i]) {
      assert e.values[i] in Split(rawValue);
    }
  }

  lemma {:induction false} ParsedItemsOk(http: Http, b: Bytes, count: nat)
    requires HttpLaw(http) && ParseEntries(http, b, count).Some?
    ensures ItemsOk(http, ParseEntries(http, b, count).value)
    decreases count
  {
    hide ParseEntries, ParseEntry, Tag;
    EntriesStep(http, b, count);
    if count > 0 {
      ParsedEntryOk(http, b);
      ParsedItemsOk(http, ParseEntry(http, b).value.rest, count - 1);
    }
  }

  lemma {:induction false} ValuesOk(http: Http, items: seq<Item>, n: Name)
    requires ItemsOk(http, items)
    ensures forall v :: v in ValuesFor(items, n) ==> http.validValue(v)
    ensures ValuesFor(items, n) != [] ==> http.normalise(n) == Some(n)
    decreases |items|
  {
    if items != [] {
      ValuesOk(http, Init(items), n);
    }
  }

  /** Adding a value costs its length and one NUL, or a whole new entry. */
  lemma {:induction false} UpsertLength(t: Tree, n: Name, v: Value)
    requires Ascending(t)
    ensures |Entries(Upsert(t, n, v))| == |Entries(t)| + |v| + if Find(t, n).Some? then 1 else 8 + |n|
    decreases |t|
  {
    if t != [] {
      LessTotal(t[0].name, n);
      if t[0].name == n {
        assert Upsert(t, n, v)[1..] == t[1..];
      } else if Less(n, t[0].name) {
        assert Upsert(t, n, v)[1..] == t;
        BelowAll(t, n);
      } else {
        assert Upsert(t, n, v)[1..] == Upsert(t[1..], n, v);
        UpsertLength(t[1..], n, v);
      }
    }
  }

  lemma {:induction false} TagLength(items: seq<Item>, n: Name, parts: seq<Value>)
    requires |parts| > 0
    ensures Find(Collect(items + Tag(n, parts)), n).Some?
    ensures |Entries(Collect(items + Tag(n, parts)))| <=
      |Entries(Collect(items))| + |Join(parts)| + if Find(Collect(items), n).Some? then 1 else 8 + |n|
    decreases |parts|
  {
    var v, shorter := Last(parts), items + Tag(n, Init(parts));
    assert items + Tag(n, parts) == shorter + [Item(n, v)];
    assert Init(shorter + [Item(n, v)]) == shorter;
    if |parts| > 1 {
      TagLength(items, n, Init(parts));
    } else {
      assert shorter == items;
    }
    CollectAscending(shorter);
    UpsertLength(Collect(shorter), n, v);
    UpsertFind(Collect(shorter), n, v, n);
  }

  lemma {:induction false} ParsedLength(http: Http, before: seq<Item>, b: Bytes, count: nat, items: seq<Item>)
    requires HttpLaw(http) && ParseEntries(http, b, count) == Some(items)
    ensures |Entries(Collect(before + items))| <= |Entries(Collect(before))| + |b|
    decreases count
  {
    hide ParseEntries, ParseEntry, Collect, Entries, Tag, Join;
    EntriesStep(http, b, count);
    if count == 0 {
      assert before + [] == before;
    } else {
      ParsedEntryOk(http, b);
      var e := ParseEntry(http, b).value;
      var rest := ParseEntries(http, e.rest, count - 1).value;
      ParsedLength(http, before + Tag(e.name, e.values), e.rest, count - 1, rest);
      ConcatAssoc(before, Tag(e.name, e.values), rest);
      TagLength(before, e.name, e.values);
    }
  }

  /** Whatever parses is a legal header map whose encoding is no longer than the input. */
  lemma ParsedIsWellFormed(http: Http, raw: Bytes)
    requires HttpLaw(http) && ParseBlock(http, raw).Ok?
    ensures HeadersOk(http, ParseBlock(http, raw).value)
    ensures |EncodeBlock(ParseBlock(http, raw).value)| <= |raw|
  {
    var items := ParseEntries(http, raw[4..], FromBytes(raw)).value;
    ParsedItemsOk(http, raw[4..], FromBytes(raw));
    forall n | n in Multimap(items) ensures http.normalise(n) == Some(n) {
      ValuesOk(http, items, n);
    }
    forall n, v | n in Multimap(items) && v in Multimap(items)[n] ensures http.validValue(v) {
      ValuesOk(http, items, n);
    }
    ParsedLength(http, [], raw[4..], FromBytes(raw), items);
    assert [] + items == items;
    CollectIsCanonical(items);
  }

  /**
   * Normalisation: re-encoding what was parsed and parsing it again changes nothing, exactly if the merged header map
   * is encodable, as it always is for fewer than 2^32 bytes.
   */
  lemma Normalisation(http: Http, raw: Bytes)
    requires HttpLaw(http) && ParseBlock(http, raw).Ok?
    ensures HeadersOk(http, ParseBlock(http, raw).value)
    ensures var h := ParseBlock(http, raw).value;
      && (ParseBlock(http, EncodeBlock(h)) == ParseBlock(http, raw) <==> Encodable(h))
      && (|raw| < 0x1_0000_0000 ==> Encodable(h))
  {
    var h := ParseBlock(http, raw).value;
    ParsedIsWellFormed(http, raw);
    BlockRoundTripExactly(http, h, []);
    assert EncodeBlock(h) + [] == EncodeBlock(h);
    if |raw| < 0x1_0000_0000 { ShortBlockIsEncodable(h); }
  }

  /** Bytes after the last counted entry are ignored. */
  lemma {:induction false} EntriesIgnoreTail(http: Http, b: Bytes, count: nat, tail: Bytes)
    requires ParseEntries(http, b, count).Some?
    ensures ParseEntries(http, b + tail, count) == ParseEntries(http, b, count)
    decreases count
  {
    hide ParseEntries, TakeField, CheckEntry;
    EntriesStep(http, b, count);
    EntriesStep(http, b + tail, count);
    if count > 0 {
      var Some((rawName, b1)) := TakeField(b);
      var Some((rawValue, b2)) := TakeField(b1);
      TakeFieldExtends(b, tail);
      TakeFieldExtends(b1, tail);
      CheckIgnoresRest(http, rawName, rawValue, b2, b2 + tail);
      EntriesIgnoreTail(http, b2, count - 1, tail);
    }
  }

  lemma CheckIgnoresRest(http: Http, rawName: Bytes, rawValue: Bytes, r1: Bytes, r2: Bytes)
    ensures CheckEntry(http, rawName, rawValue, r1).Some? <==> CheckEntry(http, rawName, rawValue, r2).Some?
    ensures CheckEntry(http, rawName, rawValue, r1).Some? ==>
      CheckEntry(http, rawName, rawValue, r1).value.rest == r1
      && CheckEntry(http, rawName, rawValue, r2).value == CheckEntry(http, rawName, rawValue, r1).value.(rest := r2)
  {
  }

  lemma FromBytesPrefix(b: Bytes, tail: Bytes)
    requires |b| >= 4
    ensures FromBytes(b + tail) == FromBytes(b)
  {
  }

  lemma TakeFieldExtends(b: Bytes, tail: Bytes)
    requires TakeField(b).Some?
    ensures TakeField(b + tail) == Some((TakeField(b).value.0, TakeField(b).value.1 + tail))
  {
    var n := FromBytes(b);
    FromBytesPrefix(b, tail);
    assert (b + tail)[4..4 + n] == b[4..4 + n];
    assert (b + tail)[4 + n..] == b[4 + n..] + tail;
  }

  lemma TrailingBytesIgnored(http: Http, raw: Bytes, tail: Bytes)
    requires ParseBlock(http, raw).Ok?
    ensures ParseBlock(http, raw + tail) == ParseBlock(http, raw)
  {
    EntriesIgnoreTail(http, raw[4..], FromBytes(raw), tail);
    FromBytesPrefix(raw, tail);
    assert (raw + tail)[4..] == raw[4..] + tail;
  }

  // ---------------------------------------------------------------------------
  // The encoder and the parser as the library runs them
  // ---------------------------------------------------------------------------

  /** `items` is the order in which the header map happens to be iterated. */
  method EncodeHeaders(items: seq<Item>) returns (raw: Bytes)
    ensures raw == EncodeBlock(Multimap(items))
  {
    var tree: Tree := [];
    for i := 0 to |items|
      invariant tree == Collect(items[..i])
    {
      assert Init(items[..i + 1]) == items[..i];
      tree := Upsert(tree, items[i].name, items[i].value);
    }
    assert items[..|items|] == items;
    CollectIsCanonical(items);
    raw := SerializeTree(tree);
  }

  method SerializeTree(tree: Tree) returns (raw: Bytes)
    ensures raw == Serialize(tree)
  {
    raw := ToBytes(AsU32(|tree|));
    assert tree[0..] == tree;
    for i := 0 to |tree|
      invariant raw + Entries(tree[i..]) == Serialize(tree)
    {
      assert tree[i..][1..] == tree[i + 1..];
      assert raw + Entries(tree[i..]) == raw + Field(tree[i].name) + Field(tree[i].value) + Entries(tree[i + 1..]);
      raw := raw + Field(tree[i].name) + Field(tree[i].value);
    }
  }

  /** A field that lies within the input, addressed by position. */
  lemma FieldAt(raw: Bytes, pos: nat)
    requires pos <= |raw|
    ensures TakeField(raw[pos..]) ==
      if pos + 4 > |raw| then None
      else if pos + 4 + FromBytes(raw[pos..]) > |raw| then None
      else var end := pos + 4 + FromBytes(raw[pos..]); Some((raw[pos + 4..end], raw[end..]))
  {
    if pos + 4 <= |raw| && pos + 4 + FromBytes(raw[pos..]) <= |raw| {
      var n := FromBytes(raw[pos..]);
      assert raw[pos..][4..4 + n] == raw[pos + 4..pos + 4 + n];
      assert raw[pos..][4 + n..] == raw[pos + 4 + n..];
    }
  }

  lemma PrependNothing(rest: Option<seq<Item>>)
    ensures Prepend([], rest) == rest
  {
    if rest.Some? { assert [] + rest.value == rest.value; }
  }

  method ParseHeaderBlock(http: Http, raw: Bytes) returns (r: Result<HeaderMap>)
    ensures r == ParseBlock(http, raw)
  {
    hide ParseEntries, TakeField, Split, Multimap, CheckEntry, FromBytes, Tag, Append;
    if |raw| < 4 { return Err(Protocol); }
    var count := FromBytes(raw);
    var h: HeaderMap := map[];
    var pos := 4;
    ghost var items := [];
    PrependNothing(ParseEntries(http, raw[4..], count));
    MultimapNothing();
    for i := 0 to count
      invariant 4 <= pos <= |raw|
      invariant h == Multimap(items)
      invariant ParseEntries(http, raw[4..], count) == Prepend(items, ParseEntries(http, raw[pos..], count - i))
    {
      ghost var at := raw[pos..];
      EntriesStep(http, at, count - i);
      FieldAt(raw, pos);
      if pos + 4 > |raw| { return Err(Protocol); }
      var nameLen := FromBytes(raw[pos..]);
      pos := pos + 4;
      if pos + nameLen > |raw| { return Err(Protocol); }
      var rawName := raw[pos..pos + nameLen];
      pos := pos + nameLen;

      FieldAt(raw, pos);
      if pos + 4 > |raw| { return Err(Protocol); }
      var valueLen := FromBytes(raw[pos..]);
      pos := pos + 4;
      if pos + valueLen > |raw| { return Err(Protocol); }
      var rawValue := raw[pos..pos + valueLen];
      pos := pos + valueLen;

      CheckCases(http, rawName, rawValue, raw[pos..]);
      var normal := http.normalise(rawName);
      if normal.None? { return Err(Protocol); }
      var parts := Split(rawValue);
      ghost var before := items;
      TagNothing(normal.value, before);
      for j := 0 to |parts|
        invariant forall k :: 0 <= k < j ==> http.validValue(parts[k])
        invariant items == before + Tag(normal.value, parts[..j])
        invariant h == Multimap(items)
      {
        if !http.validValue(parts[j]) { return Err(Protocol); }
        MultimapAppend(items, normal.value, parts[j]);
        h := Append(h, normal.value, parts[j]);
        items := items + [Item(normal.value, parts[j])];
        assert Init(parts[..j + 1]) == parts[..j];
      }
      assert parts[..|parts|] == parts;
      PrependTwice(before, Tag(normal.value, parts), ParseEntries(http, raw[pos..], count - i - 1));
    }
    EntriesStep(http, raw[pos..], 0);
    PrependAll(items);
    return Ok(h);
  }

  lemma EntriesStep(http: Http, b: Bytes, count: nat)
    ensures ParseEntries(http, b, count) ==
      if count == 0 then Some([])
      else match ParseEntry(http, b)
        case None => None
        case Some(e) => Prepend(Tag(e.name, e.values), ParseEntries(http, e.rest, count - 1))
  {
  }

  lemma CheckCases(http: Http, rawName: Bytes, rawValue: Bytes, rest: Bytes)
    ensures http.normalise(rawName).None? ==> CheckEntry(http, rawName, rawValue, rest).None?
    ensures (exists i :: 0 <= i < |Split(rawValue)| && !http.validValue(Split(rawValue)[i])) ==>
      CheckEntry(http, rawName, rawValue, rest).None?
    ensures var legal := forall i :: 0 <= i < |Split(rawValue)| ==> http.validValue(Split(rawValue)[i]);
      http.normalise(rawName).Some? && legal ==>
      CheckEntry(http, rawName, rawValue, rest) == Some(Parsed(http.normalise(rawName).value, Split(rawValue), rest))
  {
  }

  lemma MultimapNothing()
    ensures Multimap([]) == map[]
  {
  }

  lemma TagNothing(n: Name, before: seq<Item>)
    ensures before + Tag(n, []) == before
  {
  }

  lemma PrependAll(items: seq<Item>)
    ensures Prepend(items, Some([])) == Some(items)
  {
    assert items + [] == items;
  }

  lemma PrependTwice(a: seq<Item>, b: seq<Item>, rest: Option<seq<Item>>)
    ensures Prepend(a, Prepend(b, rest)) == Prepend(a + b, rest)
  {
    if rest.Some? { assert a + (b + rest.value) == a + b + rest.value; }
  }
}
