/**
  * Flattening of a nested PHP array (or object cast to an array) into the
  * bracketed field names of an `application/x-www-form-urlencoded` body,
  * as `format_postdata_for_curlcall` and `format_array_postdata_for_curlcall`
  * do it, together with a reference description of the fields (one per
  * leaf, in depth-first order) and a reference parser that reads them back.
  */
module FormEncoding {
  import opened PhpStrings
  import opened SeqFacts

  /** A PHP value: a scalar, or an array/object whose entries keep their order. */
  datatype Value = Leaf(scalar: Bytes) | Node(entries: seq<Entry>)
  datatype Entry = Entry(key: Bytes, value: Value)

  /** A leaf reached through the key path `[top] + nested`, with its scalar. */
  datatype KeyedLeaf = KeyedLeaf(top: Bytes, nested: seq<Bytes>, scalar: Bytes)

  function LeafCount(v: Value): nat {
    match v
    case Leaf(_) => 1
    case Node(es) => EntriesLeafCount(es)
  }

  function EntriesLeafCount(es: seq<Entry>): nat {
    if es == [] then 0 else LeafCount(es[0].value) + EntriesLeafCount(es[1..])
  }

  /** Puts `key` in front of every path. */
  function Under(key: Bytes, ls: seq<KeyedLeaf>): (r: seq<KeyedLeaf>)
    ensures |r| == |ls|
  {
    if ls == [] then []
    else [KeyedLeaf(key, [ls[0].top] + ls[0].nested, ls[0].scalar)] + Under(key, ls[1..])
  }

  /** The leaves below the entry `key => v`, in depth-first order. */
  function ValueLeaves(key: Bytes, v: Value): (r: seq<KeyedLeaf>)
    decreases v
    ensures |r| == LeafCount(v)
  {
    match v
    case Leaf(s) => [KeyedLeaf(key, [], s)]
    case Node(es) => Under(key, LeafPaths(es))
  }

  /** Every leaf of the entries with its key path, in depth-first order. */
  function LeafPaths(es: seq<Entry>): (r: seq<KeyedLeaf>)
    ensures |r| == EntriesLeafCount(es)
  {
    if es == [] then [] else ValueLeaves(es[0].key, es[0].value) + LeafPaths(es[1..])
  }

  // ---------------------------------------------------------------------
  // The serialiser, following the recursion of the PHP code.

  /** Fields `format_array_postdata_for_curlcall` appends for `arraydata` under the name `current`. */
  function ArrayFields(arraydata: seq<Entry>, current: Bytes): seq<Bytes> {
    if arraydata == [] then []
    else EntryFields(arraydata[0], current) + ArrayFields(arraydata[1..], current)
  }

  function EntryFields(e: Entry, current: Bytes): seq<Bytes> {
    match e.value
    case Leaf(s) => [current + "[" + UrlEncode(e.key) + "]=" + UrlEncode(s)]
    case Node(es) => ArrayFields(es, current + "[" + UrlEncode(e.key) + "]")
  }

  /** The fields of `format_postdata_for_curlcall` before they are joined. */
  function PostFields(postdata: seq<Entry>): seq<Bytes> {
    if postdata == [] then [] else TopFields(postdata[0]) + PostFields(postdata[1..])
  }

  /** The fields one top-level entry contributes. */
  function TopFields(e: Entry): seq<Bytes> {
    match e.value
    case Leaf(s) => [UrlEncode(e.key) + "=" + UrlEncode(s)]
    case Node(es) => ArrayFields(es, UrlEncode(e.key))
  }

  /** The body `format_postdata_for_curlcall` returns. */
  function FormatPostdata(postdata: seq<Entry>): Bytes {
    Join(PostFields(postdata), '&')
  }

  // ---------------------------------------------------------------------
  // The reference description: one field per leaf.

  /** `[k1][k2]...[kn]`, every key encoded. */
  function Brackets(keys: seq<Bytes>): Bytes {
    if keys == [] then [] else "[" + UrlEncode(keys[0]) + "]" + Brackets(keys[1..])
  }

  /** The field of one leaf: `k1[k2]...[kn]=v`, every segment encoded. */
  function Field(l: KeyedLeaf): Bytes {
    UrlEncode(l.top) + Brackets(l.nested) + "=" + UrlEncode(l.scalar)
  }

  function Fields(ls: seq<KeyedLeaf>): (r: seq<Bytes>)
    ensures |r| == |ls|
  {
    if ls == [] then [] else [Field(ls[0])] + Fields(ls[1..])
  }

  /** The fields of leaves nested one level deeper, below the encoded name `current`. */
  function PrefixedFields(current: Bytes, ls: seq<KeyedLeaf>): seq<Bytes> {
    if ls == [] then []
    else [current + Brackets([ls[0].top] + ls[0].nested) + "=" + UrlEncode(ls[0].scalar)]
         + PrefixedFields(current, ls[1..])
  }

  // ---------------------------------------------------------------------
  // Each list function above maps the head and recurses on the tail, so it
  // distributes over concatenation.

  lemma PrefixedFieldsCons(current: Bytes, l: KeyedLeaf, rest: seq<KeyedLeaf>)
    ensures PrefixedFields(current, [l] + rest)
         == PrefixedFields(current, [l]) + PrefixedFields(current, rest)
  {
    assert ([l] + rest)[1..] == rest;
  }

  lemma {:induction false} PrefixedFieldsAppend(current: Bytes, a: seq<KeyedLeaf>, b: seq<KeyedLeaf>)
    ensures PrefixedFields(current, a + b) == PrefixedFields(current, a) + PrefixedFields(current, b)
  {
    if a == [] {
      assert a + b == b;
    } else {
      HeadOfAppend(a, b);
      PrefixedFieldsAppend(current, a[1..], b);
      PrefixedFieldsCons(current, a[0], a[1..] + b);
      PrefixedFieldsCons(current, a[0], a[1..]);
      AppendAssoc(PrefixedFields(current, [a[0]]), PrefixedFields(current, a[1..]), PrefixedFields(current, b));
    }
  }

  lemma {:induction false} PrefixedFieldsUnder(current: Bytes, key: Bytes, ls: seq<KeyedLeaf>)
    ensures PrefixedFields(current + "[" + UrlEncode(key) + "]", ls)
         == PrefixedFields(current, Under(key, ls))
  {
    if ls != [] {
      PrefixedFieldsUnder(current, key, ls[1..]);
      var l := KeyedLeaf(key, [ls[0].top] + ls[0].nested, ls[0].scalar);
      ConsParts(l, Under(key, ls[1..]));
      BracketsUnder(current, key, [ls[0].top] + ls[0].nested);
    }
  }

  /** One more key in front of a path is one more bracket after the name. */
  lemma BracketsUnder(current: Bytes, key: Bytes, path: seq<Bytes>)
    ensures current + "[" + UrlEncode(key) + "]" + Brackets(path) == current + Brackets([key] + path)
  {
    ConsParts(key, path);
  }

  lemma {:induction false} FieldsUnder(key: Bytes, ls: seq<KeyedLeaf>)
    ensures PrefixedFields(UrlEncode(key), ls) == Fields(Under(key, ls))
  {
    if ls != [] {
      FieldsUnder(key, ls[1..]);
    }
  }

  lemma ArrayFieldsCons(e: Entry, rest: seq<Entry>, current: Bytes)
    ensures ArrayFields([e] + rest, current) == EntryFields(e, current) + ArrayFields(rest, current)
  {
    assert ([e] + rest)[1..] == rest;
  }

  lemma {:induction false} ArrayFieldsAppend(a: seq<Entry>, b: seq<Entry>, current: Bytes)
    ensures ArrayFields(a + b, current) == ArrayFields(a, current) + ArrayFields(b, current)
  {
    if a == [] {
      assert a + b == b;
    } else {
      HeadOfAppend(a, b);
      ArrayFieldsAppend(a[1..], b, current);
      ArrayFieldsCons(a[0], a[1..] + b, current);
      ArrayFieldsCons(a[0], a[1..], current);
      AppendAssoc(EntryFields(a[0], current), ArrayFields(a[1..], current), ArrayFields(b, current));
    }
  }

  lemma ArrayFieldsSnoc(arraydata: seq<Entry>, i: nat, current: Bytes)
    requires i < |arraydata|
    ensures ArrayFields(arraydata[..i + 1], current)
         == ArrayFields(arraydata[..i], current) + EntryFields(arraydata[i], current)
  {
    assert ArrayFields([arraydata[i]], current) == EntryFields(arraydata[i], current);
    ArrayFieldsAppend(arraydata[..i], [arraydata[i]], current);
    assert arraydata[..i + 1] == arraydata[..i] + [arraydata[i]];
  }

  /** The recursive helper emits, below `current`, exactly one field per leaf, in order. */
  lemma {:induction false} ArrayFieldsPerLeaf(arraydata: seq<Entry>, current: Bytes)
    ensures ArrayFields(arraydata, current) == PrefixedFields(current, LeafPaths(arraydata))
  {
    if arraydata != [] {
      var e := arraydata[0];
      ArrayFieldsPerLeaf(arraydata[1..], current);
      PrefixedFieldsAppend(current, ValueLeaves(e.key, e.value), LeafPaths(arraydata[1..]));
      match e.value
      case Leaf(s) =>
        LeafEntryField(current, e.key, s);
      case Node(es) =>
        ArrayFieldsPerLeaf(es, current + "[" + UrlEncode(e.key) + "]");
        PrefixedFieldsUnder(current, e.key, LeafPaths(es));
    }
  }

  /** A scalar entry below `current` gives the single field `current[k]=v`. */
  lemma LeafEntryField(current: Bytes, key: Bytes, s: Bytes)
    ensures EntryFields(Entry(key, Leaf(s)), current) == PrefixedFields(current, ValueLeaves(key, Leaf(s)))
  {
    var l := KeyedLeaf(key, [], s);
    var e, v := UrlEncode(key), UrlEncode(s);
    assert ValueLeaves(key, Leaf(s)) == [l];
    assert [l][1..] == [] && [key][1..] == [];
    assert [key] + [] == [key];
    assert Brackets([key]) == "[" + e + "]";
    assert PrefixedFields(current, [l]) == [current + ("[" + e + "]") + "=" + v];
    assert current + ("[" + e + "]") + "=" + v == current + "[" + e + "]=" + v;
  }

  /**
    * The flattened body holds exactly one field per leaf, in depth-first
    * order, and the field of the leaf at path k1, ..., kn is
    * `urlencode(k1)[urlencode(k2)]...[urlencode(kn)]=urlencode(v)`.
    */
  lemma {:induction false} PostFieldsPerLeaf(postdata: seq<Entry>)
    ensures PostFields(postdata) == Fields(LeafPaths(postdata))
  {
    if postdata != [] {
      var e := postdata[0];
      PostFieldsPerLeaf(postdata[1..]);
      FieldsAppend(ValueLeaves(e.key, e.value), LeafPaths(postdata[1..]));
      match e.value
      case Leaf(s) =>
        var l := KeyedLeaf(e.key, [], s);
        assert [l][1..] == [];
        assert Field(l) == UrlEncode(e.key) + "=" + UrlEncode(s);
      case Node(es) =>
        ArrayFieldsPerLeaf(es, UrlEncode(e.key));
        FieldsUnder(e.key, LeafPaths(es));
    }
  }

  lemma FieldsCons(l: KeyedLeaf, rest: seq<KeyedLeaf>)
    ensures Fields([l] + rest) == [Field(l)] + Fields(rest)
  {
    assert ([l] + rest)[1..] == rest;
  }

  lemma {:induction false} FieldsAppend(a: seq<KeyedLeaf>, b: seq<KeyedLeaf>)
    ensures Fields(a + b) == Fields(a) + Fields(b)
  {
    if a == [] {
      assert a + b == b;
    } else {
      HeadOfAppend(a, b);
      FieldsAppend(a[1..], b);
      FieldsCons(a[0], a[1..] + b);
      FieldsCons(a[0], a[1..]);
      AppendAssoc([Field(a[0])], Fields(a[1..]), Fields(b));
    }
  }

  /** The number of fields is the number of leaves. */
  lemma FieldCount(postdata: seq<Entry>)
    ensures |PostFields(postdata)| == EntriesLeafCount(postdata)
  {
    PostFieldsPerLeaf(postdata);
  }

  /** A top-level scalar entry gives `k=v` with no bracket at all. */
  lemma {:induction false} TopLevelLeafField(k: Bytes, v: Bytes)
    ensures PostFields([Entry(k, Leaf(v))]) == [UrlEncode(k) + "=" + UrlEncode(v)]
    ensures '[' !in PostFields([Entry(k, Leaf(v))])[0]
  {
    UrlEncodeAlphabet(k);
    UrlEncodeAlphabet(v);
  }

  lemma PostFieldsCons(e: Entry, rest: seq<Entry>)
    ensures PostFields([e] + rest) == TopFields(e) + PostFields(rest)
  {
    assert ([e] + rest)[1..] == rest;
  }

  lemma {:induction false} PostFieldsAppend(a: seq<Entry>, b: seq<Entry>)
    ensures PostFields(a + b) == PostFields(a) + PostFields(b)
  {
    if a == [] {
      assert a + b == b;
    } else {
      HeadOfAppend(a, b);
      PostFieldsAppend(a[1..], b);
      PostFieldsCons(a[0], a[1..] + b);
      PostFieldsCons(a[0], a[1..]);
      AppendAssoc(TopFields(a[0]), PostFields(a[1..]), PostFields(b));
    }
  }

  lemma PostFieldsSnoc(postdata: seq<Entry>, i: nat)
    requires i < |postdata|
    ensures PostFields(postdata[..i + 1]) == PostFields(postdata[..i]) + TopFields(postdata[i])
  {
    PostFieldsCons(postdata[i], []);
    assert [postdata[i]] + [] == [postdata[i]];
    PostFieldsAppend(postdata[..i], [postdata[i]]);
    assert postdata[..i + 1] == postdata[..i] + [postdata[i]];
  }

  /** An empty nested container contributes no field, not even `k=` or `k[]=`. */
  lemma EmptyContainerDropped(a: seq<Entry>, k: Bytes, b: seq<Entry>)
    ensures PostFields(a + [Entry(k, Node([]))] + b) == PostFields(a) + PostFields(b)
  {
    PostFieldsAppend(a + [Entry(k, Node([]))], b);
    PostFieldsAppend(a, [Entry(k, Node([]))]);
  }

  // ---------------------------------------------------------------------
  // A reference reader for such bodies.

  /** The part of `s` before the first `c` (all of `s` when there is none). */
  function Before(s: Bytes, c: Byte): (r: Bytes)
    ensures r <= s && c !in r
    ensures |r| < |s| ==> s[|r|] == c
  {
    if s == [] || s[0] == c then [] else [s[0]] + Before(s[1..], c)
  }

  /** The part of `s` after the first `c` (empty when there is none). */
  function After(s: Bytes, c: Byte): (r: Bytes)
    ensures |r| < |s| || s == []
  {
    if s == [] then [] else if s[0] == c then s[1..] else After(s[1..], c)
  }

  lemma {:induction false} SplitAtFirst(a: Bytes, b: Bytes, c: Byte)
    requires c !in a
    ensures Before(a + [c] + b, c) == a && After(a + [c] + b, c) == b
  {
    if a == [] {
      assert a + [c] + b == [c] + b;
      assert ([c] + b)[1..] == b;
    } else {
      SplitAtFirst(a[1..], b, c);
      assert (a + [c] + b)[1..] == a[1..] + [c] + b;
      assert [a[0]] + a[1..] == a;
    }
  }

  lemma {:induction false} BeforeAbsent(a: Bytes, c: Byte)
    requires c !in a
    ensures Before(a, c) == a
  {
    if a != [] {
      BeforeAbsent(a[1..], c);
      assert [a[0]] + a[1..] == a;
    }
  }

  /** The bracketed segments `[s1][s2]...`, still encoded. */
  function ParseBrackets(s: Bytes): seq<Bytes>
    decreases |s|
  {
    if s == [] then []
    else [Before(s[1..], ']')] + ParseBrackets(After(s[1..], ']'))
  }

  function DecodeAll(segments: seq<Bytes>): (r: seq<Bytes>)
    ensures |r| == |segments|
  {
    if segments == [] then [] else [UrlDecode(segments[0])] + DecodeAll(segments[1..])
  }

  /** Reads one field `k1[k2]...[kn]=v` back into its decoded path and value. */
  function ParseField(f: Bytes): KeyedLeaf {
    var name := Before(f, '=');
    var top := Before(name, '[');
    KeyedLeaf(UrlDecode(top), DecodeAll(ParseBrackets(name[|top|..])), UrlDecode(After(f, '=')))
  }

  function ParseFields(fs: seq<Bytes>): (r: seq<KeyedLeaf>)
    ensures |r| == |fs|
  {
    if fs == [] then [] else [ParseField(fs[0])] + ParseFields(fs[1..])
  }

  /** Reads a form body back into its leaves; the empty body has none. */
  function ParseBody(body: Bytes): seq<KeyedLeaf> {
    if body == [] then [] else ParseFields(Split(body, '&'))
  }

  lemma {:induction false} BracketsHaveNoSeparator(keys: seq<Bytes>)
    ensures '&' !in Brackets(keys) && '=' !in Brackets(keys)
  {
    if keys != [] {
      BracketsHaveNoSeparator(keys[1..]);
      UrlEncodeAlphabet(keys[0]);
      var e := UrlEncode(keys[0]);
      assert Brackets(keys) == ['['] + e + [']'] + Brackets(keys[1..]);
    }
  }

  lemma {:induction false} BracketsReadBack(keys: seq<Bytes>)
    ensures ParseBrackets(Brackets(keys)) == EncodeAll(keys)
  {
    if keys != [] {
      BracketsReadBack(keys[1..]);
      UrlEncodeAlphabet(keys[0]);
      var e := UrlEncode(keys[0]);
      var rest := Brackets(keys[1..]);
      Enclosed('[', e, ']', rest);
      SplitAtFirst(e, rest, ']');
    }
  }

  function EncodeAll(keys: seq<Bytes>): (r: seq<Bytes>)
    ensures |r| == |keys|
  {
    if keys == [] then [] else [UrlEncode(keys[0])] + EncodeAll(keys[1..])
  }

  lemma {:induction false} DecodeAllEncodeAll(keys: seq<Bytes>)
    ensures DecodeAll(EncodeAll(keys)) == keys
  {
    if keys != [] {
      DecodeAllEncodeAll(keys[1..]);
      DecodeEncode(keys[0]);
    }
  }

  /** Every field reads back as the leaf it was made from, and holds no `&`. */
  lemma FieldReadBack(l: KeyedLeaf)
    ensures '&' !in Field(l)
    ensures ParseField(Field(l)) == l
  {
    var top, brackets, value := UrlEncode(l.top), Brackets(l.nested), UrlEncode(l.scalar);
    UrlEncodeAlphabet(l.top);
    UrlEncodeAlphabet(l.scalar);
    BracketsHaveNoSeparator(l.nested);
    assert brackets == [] || brackets[0] == '[';
    ParseFieldParts(top, brackets, value);
    BracketsReadBack(l.nested);
    DecodeEncode(l.top);
    DecodeEncode(l.scalar);
    DecodeAllEncodeAll(l.nested);
  }

  /** A field splits at its first `=` into the name and the value, and the name at its first `[`. */
  lemma ParseFieldParts(top: Bytes, brackets: Bytes, value: Bytes)
    requires '=' !in top && '[' !in top && '=' !in brackets
    requires brackets == [] || brackets[0] == '['
    ensures ParseField(top + brackets + "=" + value)
         == KeyedLeaf(UrlDecode(top), DecodeAll(ParseBrackets(brackets)), UrlDecode(value))
  {
    assert '=' !in top + brackets;
    SplitAtFirst(top + brackets, value, '=');
    NameReadBack(top, brackets);
  }

  /** The name `k1[k2]...[kn]` splits at its first `[` into the top key and the brackets. */
  lemma NameReadBack(top: Bytes, brackets: Bytes)
    requires '[' !in top
    requires brackets == [] || brackets[0] == '['
    ensures Before(top + brackets, '[') == top
    ensures (top + brackets)[|top|..] == brackets
  {
    if brackets == [] {
      assert top + brackets == top;
      BeforeAbsent(top, '[');
    } else {
      assert top + brackets == top + ['['] + brackets[1..];
      SplitAtFirst(top, brackets[1..], '[');
    }
  }

  lemma {:induction false} FieldsReadBack(ls: seq<KeyedLeaf>)
    ensures forall i :: 0 <= i < |Fields(ls)| ==> '&' !in Fields(ls)[i]
    ensures ParseFields(Fields(ls)) == ls
  {
    if ls != [] {
      FieldReadBack(ls[0]);
      FieldsReadBack(ls[1..]);
      var rest := Fields(ls[1..]);
      ConsParts(Field(ls[0]), rest);
      assert Fields(ls) == [Field(ls[0])] + rest;
      forall i | 0 <= i < |Fields(ls)|
        ensures '&' !in Fields(ls)[i]
      {
        if i > 0 {
          assert Fields(ls)[i] == rest[i - 1];
        }
      }
      HeadOfAppend(ls, []);
    }
  }

  /**
    * Round trip: reading the flattened body back with the reference parser
    * (`explode` on `&`, split at `=` and at the brackets, `urldecode` of every
    * segment) gives every leaf with its key path, in depth-first order.
    */
  lemma RoundTrip(postdata: seq<Entry>)
    ensures ParseBody(FormatPostdata(postdata)) == LeafPaths(postdata)
  {
    var ls := LeafPaths(postdata);
    PostFieldsPerLeaf(postdata);
    FieldsReadBack(ls);
    if ls != [] {
      SplitJoin(Fields(ls), '&');
      FieldReadBack(ls[0]);
      assert FormatPostdata(postdata) != [] by {
        JoinKeepsFirst(Fields(ls), '&');
      }
    }
  }

  lemma JoinKeepsFirst(parts: seq<Bytes>, sep: Byte)
    requires |parts| >= 1
    ensures parts[0] <= Join(parts, sep)
  {
  }

  /** Two argument lists with the same body have the same leaves, paths and order. */
  lemma FormatPostdataInjective(a: seq<Entry>, b: seq<Entry>)
    requires FormatPostdata(a) == FormatPostdata(b)
    ensures LeafPaths(a) == LeafPaths(b)
  {
    RoundTrip(a);
    RoundTrip(b);
  }
}
