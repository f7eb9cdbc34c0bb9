/** `ErrorMessages`: the texts the todo server sends for rejected requests,
    as constants and `String.format` templates. */
module ErrorMessages {
  import opened Wrappers

  /** The text both templates start with. */
  const DeserializePrefix: string := "Request body deserialize error: "

  /** `NULL_NOT_A_STRING`, ErrorMessages.java:10. */
  const NullNotAString: string := "Request body deserialize error: invalid type: null, expected a string"

  /** `INVALID_QUERY_STRING`, ErrorMessages.java:11. */
  const InvalidQueryString: string := "Invalid query string"

  /** `missingField`, ErrorMessages.java:15-17. */
  function MissingField(fieldName: string): (message: string)
    ensures |message| == |fieldName| + 48
  {
    "Request body deserialize error: missing field `" + fieldName + "`"
  }

  /** `invalidType`, ErrorMessages.java:19-21. */
  function InvalidType(actualValue: string, expectedType: string): (message: string)
    ensures |message| == |actualValue| + |expectedType| + 57
  {
    "Request body deserialize error: invalid type: " + actualValue + ", expected " + expectedType
  }

  /** Both templates start with the deserialisation prefix, and they never
      produce the same text: they differ right after it. */
  lemma TemplatesSharePrefix(fieldName: string, actualValue: string, expectedType: string)
    ensures MissingField(fieldName)[..|DeserializePrefix|] == DeserializePrefix
    ensures InvalidType(actualValue, expectedType)[..|DeserializePrefix|] == DeserializePrefix
    ensures MissingField(fieldName) != InvalidType(actualValue, expectedType)
  {
    var k := |DeserializePrefix|;
    assert MissingField(fieldName)[k] == 'm';
    assert InvalidType(actualValue, expectedType)[k] == 'i';
  }

  /** The constant is the template instantiated with "null" and "a string". */
  lemma NullNotAStringIsInvalidType()
    ensures NullNotAString == InvalidType("null", "a string")
  {
  }

  /** The field name a missing-field message names, if the text has that
      shape. */
  function MissingFieldName(message: string): (r: Option<string>)
  {
    var head := "Request body deserialize error: missing field `";
    if |message| >= |head| + 1 && message[..|head|] == head && message[|message| - 1] == '`'
    then Some(message[|head|..|message| - 1])
    else None
  }

  /** The field name can be read back from the message. */
  lemma MissingFieldNameOfMissingField(fieldName: string)
    ensures MissingFieldName(MissingField(fieldName)) == Some(fieldName)
  {
    var head := "Request body deserialize error: missing field `";
    var m := MissingField(fieldName);
    assert m == head + fieldName + "`";
    assert m[..|head|] == head;
    assert m[|head|..|m| - 1] == fieldName;
  }

  /** Distinct field names give distinct messages. */
  lemma MissingFieldInjective(f: string, g: string)
    ensures MissingField(f) == MissingField(g) <==> f == g
  {
    MissingFieldNameOfMissingField(f);
    MissingFieldNameOfMissingField(g);
  }

  /** `invalidType` does not separate its arguments: an actual value that
      itself contains ", expected " makes two argument pairs read alike. */
  lemma InvalidTypeIsAmbiguous()
    ensures ("x, expected y", "z") != ("x", "y, expected z")
    ensures InvalidType("x, expected y", "z") == InvalidType("x", "y, expected z")
  {
  }
}
