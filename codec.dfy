/** How the cache turns a caller's value into its `data` field and back (Cache::setData and
    Cache::getData): arrays are serialized, scalars are stored as they are. */
module Codec {
  import opened Outcomes
  import opened Decimal
  import opened PhpValue
  import opened Serialization

  /** setData: an array is stored serialized, any other value verbatim. */
  function Encode(v: Value): (r: Value)
    ensures !r.Arr?
    ensures v.Arr? ==> r == Str(Serialize(v)) && Unserialize(r.s) == Some(v)
    ensures !v.Arr? ==> r == v
  {
    if v.Arr? then UnserializeSerialize(v); Str(Serialize(v)) else v
  }

  /** getData as the source writes it: the unserialized value when it is truthy, else the raw data. */
  function DecodeAsWritten(stored: Value): Value
  {
    var u := Unserialize(ToPhpString(stored));
    if u.Some? && Truthy(u.value) then u.value else stored
  }

  /** getData as intended: the unserialized value whenever unserialize succeeds, else the raw data. */
  function Decode(stored: Value): Value
  {
    match Unserialize(ToPhpString(stored))
    case Some(u) => u
    case None => stored
  }

  /** Every array comes back from its stored form. */
  lemma DecodeEncodeArray(v: Value)
    requires v.Arr?
    ensures Decode(Encode(v)) == v
  {
    UnserializeSerialize(v);
  }

  /** As written, a non-empty array comes back from its stored form... */
  lemma DecodeAsWrittenNonEmptyArray(v: Value)
    requires v.Arr? && |v.entries| > 0
    ensures DecodeAsWritten(Encode(v)) == v
  {
    UnserializeSerialize(v);
  }

  /** ...but an empty array comes back as its serialized text: unserialize returns array(),
      which is falsy, and getData then falls back to the raw string. */
  lemma DecodeAsWrittenEmptyArray()
    ensures DecodeAsWritten(Encode(Arr([]))) == Str("a:0:{}")
    ensures DecodeAsWritten(Encode(Arr([]))) != Arr([])
  {
    var v: Value := Arr([]);
    UnserializeSerialize(v);
    assert Serialize(v) == "a:0:{}";
  }

  /** Scalars whose string form is not a serialization come back unchanged, in both versions:
      null, booleans, ints, and strings that do not start with a serialize type tag. */
  lemma ScalarPassesThrough(v: Value)
    requires v.Null? || v.Bool? || v.Int? || (v.Str? && (v.s == [] || v.s[0] !in {'N', 'b', 'i', 's', 'a'}))
    ensures Decode(Encode(v)) == v
    ensures DecodeAsWritten(Encode(v)) == v
  {
    var t := ToPhpString(v);
    if v.Int? {
      assert t[0] == '-' || IsDigit(t[0]);
    }
    UntaggedIsNotSerialized(t);
  }

  /** The two versions differ only where unserialize succeeds with a falsy value. */
  lemma DecodeVersionsAgree(stored: Value)
    ensures DecodeAsWritten(stored) != Decode(stored) <==>
      (var u := Unserialize(ToPhpString(stored)); u.Some? && !Truthy(u.value) && u.value != stored)
  {
  }
}
