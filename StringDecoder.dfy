/** The string decoder of ViewFactory (getTextFromCharSequence): the text of the object a
    TextView's mText refers to.

    For a java.lang.String the text is its `value` char[] buffer, whose raw bytes hold
    each UTF-16 unit as a big-endian byte pair. For any other CharSequence the text is
    only that object's class name.
 */
module StringDecoder {
  import opened HeapDump
  import opened Binder

  /** Chars.fromBytes(hi, lo): the char Java builds as (char) ((hi << 8) | (lo & 0xFF)).
      hi << 8 has no bits in the low byte, so the | adds lo & 0xFF (lo % 0x100 here);
      the cast to char keeps the value modulo 2^16. */
  function FromBytes(hi: Int8, lo: Int8): Char16
  {
    (hi * 0x100 + lo % 0x100) % 0x1_0000
  }

  /** The unit built from a byte pair has `hi` as its high byte and `lo` as its low byte
      (both read unsigned). */
  lemma FromBytesSplits(hi: Int8, lo: Int8)
    ensures FromBytes(hi, lo) == (hi % 0x100) * 0x100 + lo % 0x100
    ensures FromBytes(hi, lo) / 0x100 == hi % 0x100 && FromBytes(hi, lo) % 0x100 == lo % 0x100
  {
  }

  /** The units of a char[] buffer of even length: unit `i` is built from bytes 2i and 2i + 1. */
  function CharsOf(bytes: seq<Int8>): JString
    requires |bytes| % 2 == 0
  {
    seq(|bytes| / 2, i requires 0 <= i < |bytes| / 2 => FromBytes(bytes[2 * i], bytes[2 * i + 1]))
  }

  /** A byte value 0..255 as Java's signed byte. */
  function Signed(b: int): Int8
    requires 0 <= b < 0x100
  {
    if b < 0x80 then b else b - 0x100
  }

  /** The char[] buffer that holds `text`: each unit as its high byte, then its low byte. */
  function BytesOf(text: JString): seq<Int8>
  {
    seq(2 * |text|, k requires 0 <= k < 2 * |text| =>
      if k % 2 == 0 then Signed(text[k / 2] / 0x100) else Signed(text[k / 2] % 0x100))
  }

  /** A unit rebuilt from its own high and low bytes is that unit. */
  lemma UnitRoundTrip(c: Char16)
    ensures FromBytes(Signed(c / 0x100), Signed(c % 0x100)) == c
  {
    var hi, lo := Signed(c / 0x100), Signed(c % 0x100);
    FromBytesSplits(hi, lo);
    assert (hi as int) % 0x100 == c / 0x100 && (lo as int) % 0x100 == c % 0x100;
  }

  /** Decoding the buffer of a text gives that text back. */
  lemma DecodeBytesOf(text: JString)
    ensures |BytesOf(text)| == 2 * |text|
    ensures CharsOf(BytesOf(text)) == text
  {
    var bytes := BytesOf(text);
    forall i | 0 <= i < |text|
      ensures CharsOf(bytes)[i] == text[i]
    {
      assert bytes[2 * i] == Signed(text[i] / 0x100);
      assert bytes[2 * i + 1] == Signed(text[i] % 0x100);
      UnitRoundTrip(text[i]);
    }
  }

  /** Every even-length buffer is the buffer of the text it decodes to. */
  lemma BytesOfDecoded(bytes: seq<Int8>)
    requires |bytes| % 2 == 0
    ensures BytesOf(CharsOf(bytes)) == bytes
  {
    var text := CharsOf(bytes);
    forall k | 0 <= k < |bytes|
      ensures BytesOf(text)[k] == bytes[k]
    {
      var i := k / 2;
      FromBytesSplits(bytes[2 * i], bytes[2 * i + 1]);
    }
  }

  /** What getTextFromCharSequence returns for `instance`. */
  function Text(instance: Instance, refs: RefHolder, data: DumpData): Result<JString>
  {
    var id := instance.classObjectId;
    if id in data.classes && id == refs.stringClass then
      var valueId :- ReadField(instance, refs.stringValueField);
      if valueId !in data.primitiveArrays then Err(NullReference)
      else
        var value := data.primitiveArrays[valueId];
        if value.elementType != Char then Err(NotCharArray)
        else if |value.arrayData| % 2 == 1 then Err(IndexOutOfBounds)
        else Ok(CharsOf(value.arrayData))
    else ClassName(instance, data)
  }

  /** The decoder's cases: a String with a char[] buffer of even length gives the units of its
      byte pairs, one of another type or of odd length is an error; any other object gives
      its class name. */
  lemma TextMeaning(instance: Instance, refs: RefHolder, data: DumpData)
    ensures instance.classObjectId != refs.stringClass ==> Text(instance, refs, data) == ClassName(instance, data)
    ensures instance.classObjectId == refs.stringClass && instance.classObjectId in data.classes ==>
      match ReadField(instance, refs.stringValueField)
      case Err(e) => Text(instance, refs, data) == Err(e)
      case Ok(valueId) =>
        if valueId !in data.primitiveArrays then Text(instance, refs, data) == Err(NullReference)
        else
          var value := data.primitiveArrays[valueId];
          var bytes := value.arrayData;
          && (value.elementType != Char ==> Text(instance, refs, data) == Err(NotCharArray))
          && (value.elementType == Char && |bytes| % 2 == 1 ==> Text(instance, refs, data) == Err(IndexOutOfBounds))
          && (value.elementType == Char && |bytes| % 2 == 0 ==>
                && Text(instance, refs, data).Ok?
                && |Text(instance, refs, data).value| == |bytes| / 2
                && forall i :: 0 <= i < |bytes| / 2 ==>
                     Text(instance, refs, data).value[i] == FromBytes(bytes[2 * i], bytes[2 * i + 1]))
  {
  }

  /** getTextFromCharSequence. */
  method GetTextFromCharSequence(instance: Instance, refs: RefHolder, data: DumpData) returns (r: Result<JString>)
    ensures r == Text(instance, refs, data)
  {
    var id := instance.classObjectId;
    if id in data.classes && id == refs.stringClass {
      var valueObjectId :- ReadField(instance, refs.stringValueField);
      if valueObjectId !in data.primitiveArrays {
        return Err(NullReference);
      }
      var value := data.primitiveArrays[valueObjectId];
      if value.elementType != Char {
        return Err(NotCharArray);
      }
      var builder: JString := [];
      var bytes := value.arrayData;
      var i := 0;
      while i < |bytes|
        invariant 0 <= i <= |bytes| && i % 2 == 0
        invariant |builder| == i / 2
        invariant forall k :: 0 <= k < i / 2 ==> builder[k] == FromBytes(bytes[2 * k], bytes[2 * k + 1])
      {
        if i + 1 >= |bytes| {
          return Err(IndexOutOfBounds);
        }
        builder := builder + [FromBytes(bytes[i], bytes[i + 1])];
        i := i + 2;
      }
      assert builder == CharsOf(bytes);
      return Ok(builder);
    }
    r := ClassName(instance, data);
  }

  /** "Hi" is held as the bytes 0x00 0x48 0x00 0x69 and decodes back to "Hi"; an empty
      buffer decodes to the empty text. */
  lemma HiRoundTrip()
    ensures BytesOf(Utf16("Hi")) == [0x00, 0x48, 0x00, 0x69]
    ensures CharsOf([0x00, 0x48, 0x00, 0x69]) == Utf16("Hi")
    ensures CharsOf([]) == []
  {
  }
}
