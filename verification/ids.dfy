/**
 * Document identifiers. Stored ids are MongoDB ObjectIds; their string form
 * (`toString()`) is 24 lower-case hexadecimal digits. Path parameters arrive
 * as raw strings, are screened by `isValidObjectId` and are cast to ObjectIds
 * by every `findById`.
 */
module ObjectIds {
  import opened Text

  predicate IsHexDigit(c: char) {
    ('0' <= c <= '9') || ('a' <= c <= 'f') || ('A' <= c <= 'F')
  }

  predicate IsLowerHexDigit(c: char) {
    ('0' <= c <= '9') || ('a' <= c <= 'f')
  }

  /** `isValidObjectId(raw)` for a string: 24 hexadecimal digits of either case. */
  predicate IsValidObjectId(raw: string) {
    |raw| == 24 && forall k :: 0 <= k < |raw| ==> IsHexDigit(raw[k])
  }

  /** The string form of an ObjectId. */
  predicate IsCanonical(s: string) {
    |s| == 24 && forall k :: 0 <= k < |s| ==> IsLowerHexDigit(s[k])
  }

  type Id = s: string | IsCanonical(s) witness "000000000000000000000000"

  /**
   * Casting a valid raw id to an ObjectId and back to its string form: the
   * same digits, case-insensitively, and the raw string itself exactly when it
   * was already lower case.
   */
  function Cast(raw: string): (id: Id)
    requires IsValidObjectId(raw)
    ensures forall k :: 0 <= k < |raw| ==> LowerChar(id[k]) == LowerChar(raw[k])
    ensures id == raw <==> IsCanonical(raw)
  {
    var id := ToLower(raw);
    assert IsCanonical(id);
    if id == raw then id else
      assert exists k :: 0 <= k < |raw| && id[k] != raw[k];
      id
  }

  /** The string form of a stored id is a valid id that casts back to itself. */
  lemma CastRoundTrip(id: Id)
    ensures IsValidObjectId(id) && Cast(id) == id
  {
  }

  /**
   * Two raw ids name the same document exactly when they agree up to the
   * case of their letters.
   */
  lemma CastSameDocument(a: string, b: string)
    requires IsValidObjectId(a) && IsValidObjectId(b)
    ensures Cast(a) == Cast(b) <==> ToLower(a) == ToLower(b)
  {
  }

  /** `owner.toString() === req.user._id.toString()`: the ownership test every mutating handler applies. */
  predicate IsOwner(caller: Id, owner: Id) {
    owner == caller
  }
}
