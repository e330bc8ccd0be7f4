/** The parameters a client starts with, and their protocol form. */
module Settings {
  import opened Proto
  import opened Capabilities

  datatype DescriptionValue =
    | String(text: string)
    | Int(number: int)
    | Bool(flag: bool)
    | Float(bits: u64)
    | Bytes(bytes: Proto.Bytes)
  {
    function ToAnyValue(): Option<AnyValue> {
      match this
      case String(s) => Some(AnyValue(Some(StringValue(s))))
      case Int(i) => Some(AnyValue(Some(IntValue(i))))
      case Bool(b) => Some(AnyValue(Some(BoolValue(b))))
      case Float(f) => Some(AnyValue(Some(DoubleValue(f))))
      case Bytes(b) => Some(AnyValue(Some(BytesValue(b))))
    }
  }

  /** A hash map: its entries, and the order in which it (and any clone of it)
      hands them out. */
  datatype HashMap = HashMap(entries: map<string, DescriptionValue>, order: seq<string>) {
    ghost predicate Valid() {
      && (forall key :: key in order <==> key in entries)
      && (forall i, j :: 0 <= i < j < |order| ==> order[i] != order[j])
    }
  }

  type AttributeMap = m: HashMap | m.Valid() witness HashMap(map[], [])

  datatype Description = Description(identifying: AttributeMap, nonIdentifying: AttributeMap) {
    predicate IsEmpty() {
      |identifying.entries| == 0 && |nonIdentifying.entries| == 0
    }

    function ToProto(): AgentDescription {
      AgentDescription(Listing(identifying), Listing(nonIdentifying))
    }
  }

  datatype StartSettings = StartSettings(
    instanceUid: Proto.Bytes,
    capabilities: Capabilities,
    customCapabilities: Option<CustomCapabilities>,
    agentDescription: Description)

  /** The entries of a map in its own order. */
  function Listing(attrs: AttributeMap): seq<KeyValue> {
    seq(|attrs.order|, i requires 0 <= i < |attrs.order| =>
      assert attrs.order[i] in attrs.order;
      KeyValue(attrs.order[i], attrs.entries[attrs.order[i]].ToAnyValue()))
  }

  /** The protocol value has the type and the content of the setting. */
  predicate SameContent(listed: Option<AnyValue>, v: DescriptionValue) {
    listed.Some? && listed.value.value.Some? && (
      var sent := listed.value.value.value;
      || (v.String? && sent.StringValue? && sent.text == v.text)
      || (v.Int? && sent.IntValue? && sent.number == v.number)
      || (v.Bool? && sent.BoolValue? && sent.flag == v.flag)
      || (v.Float? && sent.DoubleValue? && sent.bits == v.bits)
      || (v.Bytes? && sent.BytesValue? && sent.bytes == v.bytes))
  }

  method PopulateAgentDescription(attrs: AttributeMap) returns (result: seq<KeyValue>)
    ensures result == Listing(attrs)
    ensures |result| == |attrs.order|
    ensures forall i :: 0 <= i < |result| ==>
      && result[i].key == attrs.order[i] && attrs.order[i] in attrs.entries
      && SameContent(result[i].value, attrs.entries[attrs.order[i]])
  {
    result := [];
    for i := 0 to |attrs.order|
      invariant result == Listing(attrs)[..i]
    {
      var key := attrs.order[i];
      assert key in attrs.order;
      result := result + [KeyValue(key, attrs.entries[key].ToAnyValue())];
    }
  }

  /** Reads a list of attributes back into the map it lists. */
  function ValueOf(v: Option<AnyValue>): Option<DescriptionValue> {
    match v
    case Some(AnyValue(Some(StringValue(s)))) => Some(String(s))
    case Some(AnyValue(Some(IntValue(i)))) => Some(Int(i))
    case Some(AnyValue(Some(BoolValue(b)))) => Some(Bool(b))
    case Some(AnyValue(Some(DoubleValue(f)))) => Some(Float(f))
    case Some(AnyValue(Some(BytesValue(b)))) => Some(Bytes(b))
    case _ => None
  }

  function ReadBack(attrs: seq<KeyValue>): map<string, Option<DescriptionValue>> {
    if attrs == [] then map[]
    else ReadBack(attrs[..|attrs|-1])[attrs[|attrs|-1].key := ValueOf(attrs[|attrs|-1].value)]
  }

  lemma ValueRoundTrip(v: DescriptionValue)
    ensures ValueOf(v.ToAnyValue()) == Some(v)
  {
  }

  ghost function Originals(attrs: AttributeMap, keys: seq<string>): map<string, Option<DescriptionValue>> {
    map key | key in keys && key in attrs.entries :: Some(attrs.entries[key])
  }

  lemma {:induction false} ReadBackOfPrefix(attrs: AttributeMap, n: nat)
    requires n <= |attrs.order|
    ensures ReadBack(Listing(attrs)[..n]) == Originals(attrs, attrs.order[..n])
  {
    if n > 0 {
      var l, key := Listing(attrs)[..n], attrs.order[n - 1];
      assert key in attrs.order;
      ValueRoundTrip(attrs.entries[key]);
      assert ReadBack(l) == ReadBack(l[..n - 1])[key := Some(attrs.entries[key])];
      assert l[..n - 1] == Listing(attrs)[..n - 1];
      ReadBackOfPrefix(attrs, n - 1);
      assert attrs.order[..n] == attrs.order[..n - 1] + [key];
    }
  }

  lemma {:induction false} DistinctCount(keys: seq<string>)
    requires forall i, j :: 0 <= i < j < |keys| ==> keys[i] != keys[j]
    ensures |set key | key in keys| == |keys|
  {
    if keys != [] {
      var init, last := keys[..|keys|-1], keys[|keys|-1];
      DistinctCount(init);
      assert keys == init + [last];
      assert (set key | key in keys) == (set key | key in init) + {last};
      assert last !in init;
    }
  }

  lemma OneEntryPerKey(attrs: AttributeMap)
    ensures |attrs.order| == |attrs.entries|
  {
    DistinctCount(attrs.order);
    assert attrs.entries.Keys == set key | key in attrs.order;
  }

  /** Conversion loses nothing, in any iteration order: every key is listed once,
      with a value from which the original can be read back. */
  lemma ListingRoundTrip(attrs: AttributeMap)
    ensures |Listing(attrs)| == |attrs.entries|
    ensures forall i, j :: 0 <= i < j < |Listing(attrs)| ==> Listing(attrs)[i].key != Listing(attrs)[j].key
    ensures ReadBack(Listing(attrs)) == (map key | key in attrs.entries :: Some(attrs.entries[key]))
  {
    OneEntryPerKey(attrs);
    var n := |attrs.order|;
    assert attrs.order[..n] == attrs.order && Listing(attrs)[..n] == Listing(attrs);
    ReadBackOfPrefix(attrs, n);
    assert Originals(attrs, attrs.order) == (map key | key in attrs.entries :: Some(attrs.entries[key]));
  }

  /** A description has no attributes exactly when both of its maps are empty. */
  lemma EmptyIffNoAttributes(d: Description)
    ensures d.IsEmpty() <==> d.ToProto().HasNoAttributes()
  {
    OneEntryPerKey(d.identifying);
    OneEntryPerKey(d.nonIdentifying);
  }
}
