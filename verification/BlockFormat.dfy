/** The header block byte by byte, against a description of its own: what is written, and exactly what is accepted. */
module BlockFormat {
  import opened Octets
  import opened Frame
  import opened HeaderBlock

  // ---------------------------------------------------------------------------
  // The description
  // ---------------------------------------------------------------------------

  /** A 32-bit number, most significant byte first. */
  function BigEndian(n: u32): Bytes {
    [n / 0x100_0000, n / 0x1_0000 % 0x100, n / 0x100 % 0x100, n % 0x100]
  }

  predicate IsShorter(b: Bytes) {
    |b| < 0x1_0000_0000
  }

  predicate FieldsAreShorter(e: Entry) {
    IsShorter(e.name) && IsShorter(e.value)
  }

  /** Name/value pairs with their lengths. */
  function Laid(t: seq<Entry>): Bytes
    requires forall i :: 0 <= i < |t| ==> FieldsAreShorter(t[i])
  {
    if t == [] then []
    else
      assert FieldsAreShorter(t[0]);
      assert IsShorter(t[0].name);
      BigEndian(|t[0].name|) + t[0].name + BigEndian(|t[0].value|) + t[0].value + Laid(t[1..])
  }

  predicate AreShorter(t: seq<Entry>) {
    |t| < 0x1_0000_0000 && forall i :: 0 <= i < |t| ==> FieldsAreShorter(t[i])
  }

  /** The values with one zero byte between neighbours. */
  function NulJoined(vs: seq<Value>): Bytes
    requires vs != []
  {
    if |vs| == 1 then vs[0] else vs[0] + [0] + NulJoined(vs[1..])
  }

  /** The order of names by their bytes: at the first difference the smaller byte, or the end, comes first. */
  ghost predicate ByteOrder(a: Bytes, b: Bytes) {
    exists k :: DiffersAt(a, b, k)
  }

  predicate DiffersAt(a: Bytes, b: Bytes, k: int) {
    0 <= k <= |a| && k < |b| && a[..k] == b[..k] && (k == |a| || a[k] < b[k])
  }

  // ---------------------------------------------------------------------------
  // What is written
  // ---------------------------------------------------------------------------

  lemma WordIsBigEndian(n: u32)
    ensures ToBytes(n) == BigEndian(n)
  {
    assert n / 0x100 / 0x100 == n / 0x1_0000 && n / 0x1_0000 / 0x100 == n / 0x100_0000;
  }

  lemma {:induction false} LessIsByteOrder(a: Name, b: Name)
    ensures Less(a, b) <==> ByteOrder(a, b)
    decreases |a|
  {
    if b != [] && a != [] {
      LessIsByteOrder(a[1..], b[1..]);
      if a[0] == b[0] {
        if k :| DiffersAt(a[1..], b[1..], k) { OneByteOn(a, b, k); }
        if k :| DiffersAt(a, b, k) { OneByteBack(a, b, k); }
      } else {
        if a[0] < b[0] { assert DiffersAt(a, b, 0); }
        if k :| DiffersAt(a, b, k) { assert k > 0 ==> a[..k][0] == b[..k][0]; }
      }
    } else if b != [] {
      assert DiffersAt(a, b, 0);
    }
  }

  lemma OneByteOn(a: Name, b: Name, k: int)
    requires a != [] && b != [] && a[0] == b[0] && DiffersAt(a[1..], b[1..], k)
    ensures DiffersAt(a, b, k + 1)
  {
    assert a[..k + 1] == [a[0]] + a[1..][..k] && b[..k + 1] == [b[0]] + b[1..][..k];
  }

  lemma OneByteBack(a: Name, b: Name, k: int)
    requires a != [] && b != [] && a[0] == b[0] && DiffersAt(a, b, k)
    ensures DiffersAt(a[1..], b[1..], k - 1)
  {
    if k > 0 { assert a[1..][..k - 1] == a[..k][1..] && b[1..][..k - 1] == b[..k][1..]; }
  }

  /** Whatever the iteration, the names in the tree ascend by their bytes. */
  lemma NamesAscend(items: seq<Item>, i: nat, j: nat)
    requires i < j < |Collect(items)|
    ensures ByteOrder(Collect(items)[i].name, Collect(items)[j].name)
  {
    CollectAscending(items);
    LessIsByteOrder(Collect(items)[i].name, Collect(items)[j].name);
  }

  lemma {:induction false} JoinIsNulJoined(vs: seq<Value>)
    requires vs != []
    ensures Join(vs) == NulJoined(vs)
    decreases |vs|
  {
    if |vs| > 1 {
      JoinIsNulJoined(Init(vs));
      NulJoinedLast(Init(vs), Last(vs));
      assert vs == Init(vs) + [Last(vs)];
      JoinAppend(Init(vs), Last(vs));
    }
  }

  lemma {:induction false} NulJoinedLast(vs: seq<Value>, v: Value)
    requires vs != []
    ensures NulJoined(vs + [v]) == NulJoined(vs) + [0] + v
    decreases |vs|
  {
    assert (vs + [v])[1..] == vs[1..] + [v];
    if |vs| > 1 {
      NulJoinedLast(vs[1..], v);
      assert vs[0] + [0] + (NulJoined(vs[1..]) + [0] + v) == vs[0] + [0] + NulJoined(vs[1..]) + [0] + v;
    } else {
      assert (vs[1..] + [v]) == [v];
    }
  }

  lemma FieldIs(b: Bytes)
    requires IsShorter(b)
    ensures Field(b) == BigEndian(|b|) + b
  {
    WordIsBigEndian(|b|);
  }

  lemma {:induction false} EntriesAreLaid(t: seq<Entry>)
    requires AreShorter(t)
    ensures Entries(t) == Laid(t)
    decreases |t|
  {
    if t != [] {
      assert FieldsAreShorter(t[0]);
      EntriesAreLaid(t[1..]);
      FieldIs(t[0].name);
      FieldIs(t[0].value);
      var n, v := BigEndian(|t[0].name|) + t[0].name, BigEndian(|t[0].value|);
      ConcatAssoc(n, v, t[0].value);
    }
  }

  /**
   * The block of a header map, byte by byte: the number of names, then for each name, ascending by bytes, its length,
   * the name, the length of its values joined by zero bytes, and these.
   */
  lemma BlockLayout(h: HeaderMap) returns (t: seq<Entry>)
    requires (forall n :: n in h ==> |h[n]| > 0) && Encodable(h)
    ensures |t| == |h| && AreShorter(t) && EncodeBlock(h) == BigEndian(|t|) + Laid(t)
    ensures forall e :: e in t ==> e.name in h && e.value == NulJoined(h[e.name])
    ensures forall i, j :: 0 <= i < j < |t| ==> ByteOrder(t[i].name, t[j].name)
  {
    hide Encodable, Join, IsShort, ByteOrder, Less, Entries, Laid, BigEndian, AreShorter, Serialize;
    t := Canonical(h);
    CanonicalSize(h);
    CanonicalFind(h);
    ShortFields(h, t);
    forall e | e in t ensures e.value == NulJoined(h[e.name]) { JoinIsNulJoined(h[e.name]); }
    forall i, j | 0 <= i < j < |t| ensures ByteOrder(t[i].name, t[j].name) { LessIsByteOrder(t[i].name, t[j].name); }
    SerializedIsLaid(t);
  }

  lemma SerializedIsLaid(t: seq<Entry>)
    requires AreShorter(t)
    ensures Serialize(t) == BigEndian(|t|) + Laid(t)
  {
    hide Entries, Laid, BigEndian, ToBytes;
    EntriesAreLaid(t);
    WordIsBigEndian(|t|);
  }

  lemma ShortFields(h: HeaderMap, t: seq<Entry>)
    requires Encodable(h) && |t| == |h|
    requires forall e :: e in t ==> e.name in h && h[e.name] != [] && e.value == Join(h[e.name])
    ensures AreShorter(t)
  {
    forall i | 0 <= i < |t| ensures FieldsAreShorter(t[i]) {
      assert t[i] in t;
      assert IsShort(t[i].name, h[t[i].name]);
    }
  }

  // ---------------------------------------------------------------------------
  // What is accepted
  // ---------------------------------------------------------------------------

  ghost predicate IsLegal(http: Http, e: Entry) {
    http.normalise(e.name).Some? && forall v :: v in Split(e.value) ==> http.validValue(v)
  }

  /** Legal raw entries: names with a normal form, and values that are legal between their zero bytes. */
  ghost predicate AreLegal(http: Http, t: seq<Entry>) {
    forall i :: 0 <= i < |t| ==> IsLegal(http, t[i])
  }

  /** The values under one normal name, those of the first entry first. */
  ghost function ValuesOf(http: Http, t: seq<Entry>, n: Name): seq<Value> {
    if t == [] then []
    else (if http.normalise(t[0].name) == Some(n) then Split(t[0].value) else []) + ValuesOf(http, t[1..], n)
  }

  ghost predicate IsMerged(http: Http, t: seq<Entry>, h: HeaderMap) {
    forall n :: (n in h <==> ValuesOf(http, t, n) != []) && (n in h ==> h[n] == ValuesOf(http, t, n))
  }

  ghost predicate IsBlockOf(http: Http, raw: Bytes, t: seq<Entry>, tail: Bytes) {
    AreShorter(t) && AreLegal(http, t) && raw == BigEndian(|t|) + Laid(t) + tail
  }

  ghost function ItemsOf(http: Http, t: seq<Entry>): seq<Item>
    requires AreLegal(http, t)
  {
    if t == [] then []
    else
      assert IsLegal(http, t[0]);
      Tag(http.normalise(t[0].name).value, Split(t[0].value)) + ItemsOf(http, t[1..])
  }

  lemma EntryParses(http: Http, e: Entry, rest: Bytes)
    requires IsLegal(http, e) && FieldsAreShorter(e)
    ensures ParseEntry(http, Field(e.name) + Field(e.value) + rest) ==
      Some(Parsed(http.normalise(e.name).value, Split(e.value), rest))
  {
    hide TakeField, Field, Split;
    ConcatAssoc(Field(e.name), Field(e.value), rest);
    TakeFieldOf(e.name, Field(e.value) + rest);
    TakeFieldOf(e.value, rest);
  }

  lemma {:induction false} EntriesParse(http: Http, t: seq<Entry>, tail: Bytes)
    requires AreLegal(http, t) && AreShorter(t)
    ensures ParseEntries(http, Entries(t) + tail, |t|) == Some(ItemsOf(http, t))
    decreases |t|
  {
    hide ParseEntries, ParseEntry, Entries, ItemsOf, Field, Split, Tag, FieldsAreShorter, IsLegal;
    EntriesStep(http, Entries(t) + tail, |t|);
    if t == [] {
      NoEntries(http, tail);
    } else {
      var e, more := t[0], t[1..];
      assert IsLegal(http, e) && FieldsAreShorter(e);
      EntryParses(http, e, Entries(more) + tail);
      EntriesParse(http, more, tail);
      FirstEntry(http, t);
      ConcatAssoc(Field(e.name) + Field(e.value), Entries(more), tail);
    }
  }

  lemma NoEntries(http: Http, b: Bytes)
    ensures Entries([]) + b == b && ItemsOf(http, []) == []
    ensures AreShorter([]) && AreLegal(http, [])
  {
  }

  lemma FirstEntry(http: Http, t: seq<Entry>)
    requires t != [] && AreLegal(http, t)
    ensures Entries(t) == Field(t[0].name) + Field(t[0].value) + Entries(t[1..])
    ensures IsLegal(http, t[0]) && http.normalise(t[0].name).Some? && AreLegal(http, t[1..])
    ensures ItemsOf(http, t) == Tag(http.normalise(t[0].name).value, Split(t[0].value)) + ItemsOf(http, t[1..])
  {
    hide Field, Split, Tag;
    assert IsLegal(http, t[0]);
  }

  /** A field that can be taken is there with its length. */
  lemma TakenField(b: Bytes)
    requires TakeField(b).Some?
    ensures IsShorter(TakeField(b).value.0) && b == Field(TakeField(b).value.0) + TakeField(b).value.1
  {
    hide FromBytes, ToBytes, Field;
    var n: nat := FromBytes(b);
    FromBytesInvert(b);
    ThreeParts(b, 4, 4 + n);
    FieldOf(b[4..4 + n], n);
  }

  lemma FieldOf(b: Bytes, n: u32)
    requires |b| == n
    ensures Field(b) == ToBytes(n) + b
  {
  }

  lemma ThreeParts(b: Bytes, i: nat, j: nat)
    requires i <= j <= |b|
    ensures b == b[..i] + b[i..j] + b[j..]
  {
  }

  lemma FromBytesInvert(b: Bytes)
    requires |b| >= 4
    ensures ToBytes(FromBytes(b)) == b[..4]
  {
    var n := FromBytes(b);
    WordIsBigEndian(n);
    assert n % 0x100 == b[3] && n / 0x100 == (b[0] as int) * 0x1_0000 + (b[1] as int) * 0x100 + b[2];
    assert n / 0x1_0000 == (b[0] as int) * 0x100 + b[1] && n / 0x100_0000 == b[0];
  }

  lemma {:induction false} ParsedEntries(http: Http, b: Bytes, count: nat) returns (t: seq<Entry>, tail: Bytes)
    requires ParseEntries(http, b, count).Some? && count < 0x1_0000_0000
    ensures |t| == count && AreShorter(t) && AreLegal(http, t) && b == Entries(t) + tail
    decreases count
  {
    hide ParseEntries, ParseEntry, Field, Split, AreLegal, AreShorter, Entries, Tag, IsLegal, FieldsAreShorter;
    EntriesStep(http, b, count);
    if count == 0 {
      t, tail := [], b;
      NoEntries(http, b);
    } else {
      var e, rest := TakenEntry(http, b);
      var more;
      more, tail := ParsedEntries(http, rest, count - 1);
      t := [e] + more;
      OneMoreEntry(http, e, more);
      ConcatAssoc(Field(e.name) + Field(e.value), Entries(more), tail);
    }
  }

  lemma TakenEntry(http: Http, b: Bytes) returns (e: Entry, rest: Bytes)
    requires ParseEntry(http, b).Some?
    ensures IsLegal(http, e) && FieldsAreShorter(e) && b == Field(e.name) + Field(e.value) + rest
    ensures ParseEntry(http, b).value.rest == rest
  {
    hide TakeField, Field, Split;
    var Some((rawName, b1)) := TakeField(b);
    var Some((rawValue, b2)) := TakeField(b1);
    TakenField(b);
    TakenField(b1);
    e, rest := Entry(rawName, rawValue), b2;
    ConcatAssoc(Field(rawName), Field(rawValue), b2);
  }

  lemma OneMoreEntry(http: Http, e: Entry, more: seq<Entry>)
    requires AreShorter(more) && |more| + 1 < 0x1_0000_0000 && AreLegal(http, more)
    requires IsLegal(http, e) && FieldsAreShorter(e)
    ensures AreShorter([e] + more) && AreLegal(http, [e] + more)
    ensures Entries([e] + more) == Field(e.name) + Field(e.value) + Entries(more)
  {
    hide Field, FieldsAreShorter, IsLegal;
    var t := [e] + more;
    assert t[1..] == more;
    forall i | 0 <= i < |t| ensures FieldsAreShorter(t[i]) && IsLegal(http, t[i]) {
      assert t[i] == if i == 0 then e else more[i - 1];
    }
  }

  lemma {:induction false} ItemsAreValues(http: Http, t: seq<Entry>, n: Name)
    requires AreLegal(http, t)
    ensures ValuesFor(ItemsOf(http, t), n) == ValuesOf(http, t, n)
    decreases |t|
  {
    if t != [] {
      hide Split;
      ItemsAreValues(http, t[1..], n);
      ValuesForConcat(Tag(http.normalise(t[0].name).value, Split(t[0].value)), ItemsOf(http, t[1..]), n);
      ValuesForTag(http.normalise(t[0].name).value, Split(t[0].value), n);
    }
  }

  lemma BlockOfParses(http: Http, raw: Bytes, t: seq<Entry>, tail: Bytes)
    requires IsBlockOf(http, raw, t, tail)
    ensures ParseBlock(http, raw) == Ok(Multimap(ItemsOf(http, t)))
  {
    hide ParseEntries, AreLegal, ItemsOf, ToBytes, BigEndian, Multimap;
    EntriesAreLaid(t);
    WordIsBigEndian(|t|);
    EntriesParse(http, t, tail);
    ConcatAssoc(ToBytes(|t|), Entries(t), tail);
    ParseCounted(http, |t|, Entries(t) + tail, ItemsOf(http, t));
  }

  lemma MergedIs(http: Http, t: seq<Entry>, h: HeaderMap)
    requires AreLegal(http, t)
    ensures Multimap(ItemsOf(http, t)) == h <==> IsMerged(http, t, h)
  {
    hide ValuesFor, ItemsOf, AreLegal, ValuesOf;
    forall n ensures ValuesFor(ItemsOf(http, t), n) == ValuesOf(http, t, n) { ItemsAreValues(http, t, n); }
    var m := Multimap(ItemsOf(http, t));
    if IsMerged(http, t, h) {
      assert forall n :: n in m <==> n in h;
      assert m == h;
    }
  }

  /**
   * Exactly what is accepted, and as what: a block parses to a header map if and only if it is a count and as many
   * legal raw entries, each field with its length, followed by anything, and the map has under each normal name the
   * values of its entries in order. Everything else is a protocol error.
   */
  lemma ParseIsTheFormat(http: Http, raw: Bytes, h: HeaderMap)
    ensures ParseBlock(http, raw) == Ok(h) <==> exists t, tail :: IsBlockOf(http, raw, t, tail) && IsMerged(http, t, h)
    ensures ParseBlock(http, raw).Err? ==> ParseBlock(http, raw) == Err(Protocol)
  {
    hide ParseBlock, IsMerged, IsBlockOf;
    forall t, tail | IsBlockOf(http, raw, t, tail) && IsMerged(http, t, h) ensures ParseBlock(http, raw) == Ok(h) {
      BlockOfParses(http, raw, t, tail);
      LegalOf(http, raw, t, tail);
      MergedIs(http, t, h);
    }
    if ParseBlock(http, raw) == Ok(h) {
      var t, tail := SomeBlock(http, raw);
      BlockOfParses(http, raw, t, tail);
      LegalOf(http, raw, t, tail);
      MergedIs(http, t, h);
    }
    OnlyProtocol(http, raw);
  }

  lemma LegalOf(http: Http, raw: Bytes, t: seq<Entry>, tail: Bytes)
    requires IsBlockOf(http, raw, t, tail)
    ensures AreLegal(http, t)
  {
  }

  lemma OnlyProtocol(http: Http, raw: Bytes)
    ensures ParseBlock(http, raw).Err? ==> ParseBlock(http, raw) == Err(Protocol)
  {
  }

  lemma SomeBlock(http: Http, raw: Bytes) returns (t: seq<Entry>, tail: Bytes)
    requires ParseBlock(http, raw).Ok?
    ensures IsBlockOf(http, raw, t, tail)
  {
    hide ParseEntries, AreLegal, Laid, BigEndian;
    t, tail := ParsedEntries(http, raw[4..], FromBytes(raw));
    FromBytesInvert(raw);
    WordIsBigEndian(|t|);
    EntriesAreLaid(t);
    assert raw == raw[..4] + raw[4..];
    ConcatAssoc(raw[..4], Entries(t), tail);
  }
}
