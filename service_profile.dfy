/**
 * The decoded answer to a profile request: `SignalServiceProfile` and its
 * failable initialiser, a chain of guards over the untyped response object.
 */
module ServiceProfile {
  import opened Basics
  import Base64

  /** A key of a decoded response dictionary: a string, or anything else. */
  datatype DictKey = StringKey(name: string) | OtherKey(description: string)

  /**
   * The untyped response object (`Any?`) as the JSON layer can produce it;
   * `Null` stands for both `nil` and `NSNull`.
   */
  datatype Payload =
    | Null
    | Str(s: string)
    | Number(n: int)
    | Boolean(b: bool)
    | List(items: seq<Payload>)
    | Dictionary(entries: map<DictKey, Payload>)

  /** The decoded profile: the recipient it was asked for and its 32-byte identity key. */
  datatype SignalServiceProfile = SignalServiceProfile(recipientId: string, identityKey: seq<byte>)

  /** Why a response was rejected; each guard of the initialiser logs its own reason. */
  datatype DecodeError =
    | UnexpectedType
    | MissingIdentityKey
    | UnparsableIdentityKey(keyString: string)
    | MalformedKey(keyString: string, decodedLength: nat)

  /** Name of the response field holding the base64 identity key. */
  const IdentityKeyField: string := "identityKey"

  /** Length of an identity key with its one-byte type prefix. */
  const IdentityKeyLength: nat := 33

  /** Whether every key of the dictionary is a string: the cast `as? [String: Any?]`. */
  predicate IsStringKeyed(entries: map<DictKey, Payload>) {
    forall k | k in entries :: k.StringKey?
  }

  /** The string held under `field`, if the response is a string-keyed dictionary holding one. */
  function StringField(raw: Payload, field: string): Option<string> {
    if raw.Dictionary? && IsStringKeyed(raw.entries)
       && StringKey(field) in raw.entries && raw.entries[StringKey(field)].Str?
    then Some(raw.entries[StringKey(field)].s)
    else None
  }

  /** Drops the leading key-type byte of a key. */
  function RemoveKeyType(keyWithType: seq<byte>): (key: seq<byte>)
    requires |keyWithType| >= 1
    ensures |key| == |keyWithType| - 1
    ensures forall i | 0 <= i < |key| :: key[i] == keyWithType[i + 1]
  {
    keyWithType[1..]
  }

  /**
   * `SignalServiceProfile.init?(recipientId:rawResponse:)`: accepts only a
   * string-keyed dictionary whose `identityKey` entry is a base64 string of
   * exactly 33 bytes, and keeps those bytes without their type byte.
   */
  function Decode(recipientId: string, raw: Payload): (r: Result<SignalServiceProfile, DecodeError>)
    ensures r.Success? ==>
      && r.value.recipientId == recipientId
      && |r.value.identityKey| == IdentityKeyLength - 1
      && StringField(raw, IdentityKeyField).Some?
      && exists keyType: byte ::
           Base64.Decode(StringField(raw, IdentityKeyField).value) == Some([keyType] + r.value.identityKey)
  {
    if !(raw.Dictionary? && IsStringKeyed(raw.entries)) then Failure(UnexpectedType)
    else if StringKey(IdentityKeyField) !in raw.entries || !raw.entries[StringKey(IdentityKeyField)].Str? then
      Failure(MissingIdentityKey)
    else
      var keyString := raw.entries[StringKey(IdentityKeyField)].s;
      match Base64.Decode(keyString)
      case None => Failure(UnparsableIdentityKey(keyString))
      case Some(keyWithType) =>
        if |keyWithType| != IdentityKeyLength then Failure(MalformedKey(keyString, |keyWithType|))
        else
          assert keyWithType == [keyWithType[0]] + keyWithType[1..];
          Success(SignalServiceProfile(recipientId, RemoveKeyType(keyWithType)))
  }

  /** A response that carries `identityKey` as the base64 of a typed key, among any other string-keyed fields. */
  function ResponseWithKey(fields: map<string, Payload>, keyType: byte, key: seq<byte>): Payload {
    Dictionary(map k | k in fields.Keys + {IdentityKeyField} ::
      StringKey(k) := if k == IdentityKeyField then Str(Base64.Encode([keyType] + key)) else fields[k])
  }

  // ---------------------------------------------------------------------------
  // Properties

  /** Every rejection is a Failure: no partial record exists in any of the four cases. */
  lemma RejectsWhatItShould(recipientId: string, raw: Payload)
    ensures !(raw.Dictionary? && IsStringKeyed(raw.entries)) ==> Decode(recipientId, raw) == Failure(UnexpectedType)
    ensures raw.Dictionary? && IsStringKeyed(raw.entries) && StringField(raw, IdentityKeyField).None? ==>
      Decode(recipientId, raw) == Failure(MissingIdentityKey)
    ensures StringField(raw, IdentityKeyField).Some? && Base64.Decode(StringField(raw, IdentityKeyField).value).None? ==>
      Decode(recipientId, raw).Failure? && Decode(recipientId, raw).error.UnparsableIdentityKey?
    ensures StringField(raw, IdentityKeyField).Some? && Base64.Decode(StringField(raw, IdentityKeyField).value).Some?
            && |Base64.Decode(StringField(raw, IdentityKeyField).value).value| != IdentityKeyLength ==>
      Decode(recipientId, raw).Failure? && Decode(recipientId, raw).error.MalformedKey?
  {
  }

  /**
   * Decoding succeeds exactly on responses whose identity key string decodes
   * to 33 bytes, and the record then holds the last 32 of them.
   */
  lemma DecodeSucceedsIff(recipientId: string, raw: Payload)
    ensures Decode(recipientId, raw).Success? <==>
      && StringField(raw, IdentityKeyField).Some?
      && Base64.Decode(StringField(raw, IdentityKeyField).value).Some?
      && |Base64.Decode(StringField(raw, IdentityKeyField).value).value| == IdentityKeyLength
    ensures Decode(recipientId, raw).Success? ==>
      Decode(recipientId, raw).value.identityKey == Base64.Decode(StringField(raw, IdentityKeyField).value).value[1..]
  {
  }

  /** A 33-byte key arrives as exactly 44 base64 characters without padding. */
  lemma AcceptedKeyStringShape(recipientId: string, raw: Payload)
    requires Decode(recipientId, raw).Success?
    ensures |StringField(raw, IdentityKeyField).value| == 44
    ensures Base64.PadCount(StringField(raw, IdentityKeyField).value) == 0
  {
    var keyString := StringField(raw, IdentityKeyField).value;
    Base64.DecodedLength(keyString);
  }

  /**
   * Round trip: the response a server builds from a 32-byte key with any type
   * byte, alongside any other fields, decodes to that key for the recipient asked for.
   */
  lemma DecodesEncodedResponse(recipientId: string, fields: map<string, Payload>, keyType: byte, key: seq<byte>)
    requires |key| == IdentityKeyLength - 1
    ensures Decode(recipientId, ResponseWithKey(fields, keyType, key)) == Success(SignalServiceProfile(recipientId, key))
  {
    var raw := ResponseWithKey(fields, keyType, key);
    Base64.DecodeEncode([keyType] + key);
    assert StringKey(IdentityKeyField) in raw.entries;
    assert ([keyType] + key)[1..] == key;
  }
}
