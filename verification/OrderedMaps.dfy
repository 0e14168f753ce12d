/** The ordered maps of columns and parameters: keys in the order they came, values beside them.
    JSON text is taken as what a decoder reads of it, one member after another. */
module OrderedMaps {
  import opened Wrappers
  import opened Seqs

  datatype Dict<V> = Dict(keys: seq<string>, values: map<string, V>)

  type Members<V> = seq<(string, V)>

  /** One member as the decoder reads it. */
  datatype Member<V> = Member(key: string, value: V) | BadKey | BadValue(key: string)

  /** A text as the decoder reads it: `null`, an object that may stop before its closing brace, or
      anything else. */
  datatype Document<V> = NullText | Object(members: seq<Member<V>>, closed: bool) | NotAnObject

  datatype JsonError = ExpectedObject | ReadingKey | ReadingValue(key: string) | ExpectedEnd

  /** The members in front of the first that cannot be read. */
  function Readable<V>(members: seq<Member<V>>): (r: Members<V>)
    ensures |r| <= |members|
    ensures forall i | 0 <= i < |r| :: members[i] == Member(r[i].0, r[i].1)
    ensures |r| < |members| ==> !members[|r|].Member?
  {
    if members == [] || !members[0].Member? then []
    else [(members[0].key, members[0].value)] + Readable(members[1..])
  }

  /** The members that end up in the map. */
  function MembersRead<V>(doc: Document<V>): Members<V> {
    if doc.Object? then Readable(doc.members) else []
  }

  function DecodeError<V>(doc: Document<V>): Option<JsonError> {
    match doc
    case NullText => None
    case NotAnObject => Some(ExpectedObject)
    case Object(members, closed) =>
      var n := |Readable(members)|;
      if n < |members| then Some(if members[n].BadKey? then ReadingKey else ReadingValue(members[n].key))
      else if closed then None
      else Some(ExpectedEnd)
  }

  /** Each key is listed once and has a value. */
  ghost predicate Sound<V>(d: Dict<V>) {
    AllDifferent(d.keys) && forall k :: k in d.keys <==> k in d.values
  }

  function Put<V>(d: Dict<V>, key: string, value: V): Dict<V> {
    Dict(if key in d.values then d.keys else d.keys + [key], d.values[key := value])
  }

  function Empty<V>(): Dict<V> {
    Dict([], map[])
  }

  function KeysOf<V>(members: Members<V>): (keys: seq<string>)
    ensures |keys| == |members| && forall i | 0 <= i < |members| :: keys[i] == members[i].0
  {
    if members == [] then [] else KeysOf(members[..|members| - 1]) + [members[|members| - 1].0]
  }

  /** One `Set` per member. */
  function Built<V>(members: Members<V>): Dict<V> {
    if members == [] then Empty()
    else
      var last := members[|members| - 1];
      Put(Built(members[..|members| - 1]), last.0, last.1)
  }

  /** What decoding gives: every member appends its key, whether it is new or not. */
  function Decoded<V>(members: Members<V>): Dict<V> {
    if members == [] then Empty()
    else
      var last := members[|members| - 1];
      var before := Decoded(members[..|members| - 1]);
      Dict(before.keys + [last.0], before.values[last.0 := last.1])
  }

  /** Every listed key with its value, or the zero value when it has none. */
  function Encoded<V>(d: Dict<V>, zero: V): (members: Members<V>)
    ensures |members| == |d.keys|
    ensures forall i | 0 <= i < |d.keys| ::
              members[i] == (d.keys[i], if d.keys[i] in d.values then d.values[d.keys[i]] else zero)
  {
    seq(|d.keys|, i requires 0 <= i < |d.keys| =>
      (d.keys[i], if d.keys[i] in d.values then d.values[d.keys[i]] else zero))
  }

  function Written<V>(members: Members<V>): (r: seq<Member<V>>)
    ensures |r| == |members|
  {
    if members == [] then [] else [Member(members[0].0, members[0].1)] + Written(members[1..])
  }

  class OrderedMap<V> {
    /** What reading a missing key gives. */
    const zero: V
    var keys: seq<string>
    var values: map<string, V>

    ghost function Contents(): Dict<V>
      reads this
    {
      Dict(keys, values)
    }

    constructor (zero: V)
      ensures this.zero == zero && Contents() == Empty()
    {
      this.zero, keys, values := zero, [], map[];
    }

    method Set(key: string, value: V)
      modifies this
      ensures Contents() == Put(old(Contents()), key, value)
      ensures old(Sound(Contents())) ==> Sound(Contents())
    {
      if Sound(Contents()) {
        PutIsSound(Contents(), key, value);
      }
      if key !in values {
        keys := keys + [key];
      }
      values := values[key := value];
    }

    method Get(key: string) returns (value: Option<V>)
      ensures value == if key in values then Some(values[key]) else None
    {
      value := if key in values then Some(values[key]) else None;
    }

    /** The members read before an error stay in the map. */
    method UnmarshalJSON(doc: Document<V>) returns (error: Option<JsonError>)
      modifies this
      ensures Contents() == Decoded(MembersRead(doc))
      ensures error == DecodeError(doc)
    {
      keys, values := [], map[];
      if doc.NullText? {
        return None;
      }
      if doc.NotAnObject? {
        return Some(ExpectedObject);
      }
      ghost var readable := Readable(doc.members);
      for i := 0 to |doc.members|
        invariant i <= |readable| && Contents() == Decoded(readable[..i])
      {
        match doc.members[i]
        case BadKey =>
          assert readable[..i] == readable;
          return Some(ReadingKey);
        case BadValue(key) =>
          assert readable[..i] == readable;
          return Some(ReadingValue(key));
        case Member(key, value) =>
          assert readable[..i + 1][..i] == readable[..i];
          keys := keys + [key];
          values := values[key := value];
      }
      assert readable[..|doc.members|] == readable;
      return if doc.closed then None else Some(ExpectedEnd);
    }

    method MarshalJSON() returns (members: Members<V>)
      ensures members == Encoded(Contents(), zero)
    {
      members := [];
      for i := 0 to |keys|
        invariant members == Encoded(Contents(), zero)[..i]
      {
        members := members + [(keys[i], if keys[i] in values then values[keys[i]] else zero)];
      }
    }
  }

  lemma PutIsSound<V>(d: Dict<V>, key: string, value: V)
    requires Sound(d)
    ensures Sound(Put(d, key, value))
  {
  }

  lemma {:induction false} BuiltIsSound<V>(members: Members<V>)
    ensures Sound(Built(members))
    ensures forall k :: k in Built(members).values <==> k in KeysOf(members)
    ensures Built(members).values == Decoded(members).values
  {
    if members != [] {
      BuiltIsSound(members[..|members| - 1]);
      PutIsSound(Built(members[..|members| - 1]), members[|members| - 1].0, members[|members| - 1].1);
    }
  }

  lemma {:induction false} DecodedKeys<V>(members: Members<V>)
    ensures Decoded(members).keys == KeysOf(members)
  {
    if members != [] {
      DecodedKeys(members[..|members| - 1]);
    }
  }

  /** Decoding a document gives what setting its members one by one gives, exactly when no key is
      repeated; a repeated key is listed twice. The values are the same in any case. */
  lemma {:induction false} DecodedIsBuilt<V>(members: Members<V>)
    ensures Decoded(members).values == Built(members).values
    ensures Decoded(members) == Built(members) <==> AllDifferent(KeysOf(members))
    ensures Sound(Decoded(members)) <==> AllDifferent(KeysOf(members))
  {
    BuiltIsSound(members);
    DecodedKeys(members);
    if AllDifferent(KeysOf(members)) {
      DifferentKeys(members);
    }
  }

  lemma {:induction false} DifferentKeys<V>(members: Members<V>)
    requires AllDifferent(KeysOf(members))
    ensures Built(members).keys == KeysOf(members)
  {
    if members != [] {
      var n := |members| - 1;
      assert forall i | 0 <= i < n :: KeysOf(members[..n])[i] == KeysOf(members)[i];
      DifferentKeys(members[..n]);
      BuiltIsSound(members[..n]);
    }
  }

  lemma {:induction false} WrittenReads<V>(members: Members<V>)
    ensures Readable(Written(members)) == members
  {
    if members != [] {
      WrittenReads(members[1..]);
      assert Written(members)[1..] == Written(members[1..]);
    }
  }

  lemma EncodedKeys<V>(d: Dict<V>, zero: V)
    ensures KeysOf(Encoded(d, zero)) == d.keys
  {
  }

  lemma EncodedDecodes<V>(d: Dict<V>, zero: V)
    requires Sound(d)
    ensures Decoded(Encoded(d, zero)) == d
  {
    var members := Encoded(d, zero);
    DecodedKeys(members);
    EncodedKeys(d, zero);
    DecodedValues(d, members, zero);
    assert Decoded(members).values == d.values;
  }

  /** Writing a sound map and reading it back gives it back, keys in the same order. */
  lemma JsonRoundTrip<V>(d: Dict<V>, zero: V)
    requires Sound(d)
    ensures var doc := Object(Written(Encoded(d, zero)), true);
            DecodeError(doc) == None && Decoded(MembersRead(doc)) == d
  {
    WrittenReads(Encoded(d, zero));
    EncodedDecodes(d, zero);
  }

  lemma DecodedValues<V>(d: Dict<V>, members: Members<V>, zero: V)
    requires Sound(d) && members == Encoded(d, zero) && KeysOf(members) == d.keys
    ensures forall k :: k in Decoded(members).values <==> k in d.values
    ensures forall k | k in d.values :: Decoded(members).values[k] == d.values[k]
  {
    BuiltIsSound(members);
    forall k | k in d.values
      ensures k in Decoded(members).values && Decoded(members).values[k] == d.values[k]
    {
      var i :| 0 <= i < |d.keys| && d.keys[i] == k;
      LastValue(members, i);
    }
  }

  /** With different keys, each key has its own member's value. */
  lemma {:induction false} LastValue<V>(members: Members<V>, i: nat)
    requires i < |members| && AllDifferent(KeysOf(members))
    ensures members[i].0 in Decoded(members).values && Decoded(members).values[members[i].0] == members[i].1
  {
    var n := |members| - 1;
    if i < n {
      assert KeysOf(members)[i] != KeysOf(members)[n];
      assert forall j | 0 <= j < n :: KeysOf(members[..n])[j] == KeysOf(members)[j];
      LastValue(members[..n], i);
    }
  }
}
