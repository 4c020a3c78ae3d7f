/** Document identifiers: MongoDB ObjectIds rendered as text. */
module Ids {
  import opened Wrappers
  import opened Strings

  /** The canonical rendering of an ObjectId: 24 lower-case hexadecimal digits. */
  predicate IsObjectId(s: string) {
    |s| == 24 && IsLowerHex(s)
  }

  predicate IsHexChar(c: char) {
    '0' <= c <= '9' || 'a' <= c <= 'f' || 'A' <= c <= 'F'
  }

  /**
   * Mongoose's cast of a path parameter or a token subject to an ObjectId: 24 hexadecimal
   * digits in either case denote the id with that canonical rendering; anything else is a
   * CastError (None).
   */
  function CastObjectId(s: string): (r: Option<string>)
    ensures r.Some? <==> |s| == 24 && forall i :: 0 <= i < |s| ==> IsHexChar(s[i])
    ensures r.Some? ==> IsObjectId(r.value) && r.value == ToLower(s)
    ensures IsObjectId(s) ==> r == Some(s)
  {
    if |s| == 24 && forall i :: 0 <= i < |s| ==> IsHexChar(s[i]) then
      var l := ToLower(s);
      assert forall i :: 0 <= i < |l| ==> IsLowerHexChar(l[i]);
      assert IsObjectId(s) ==> l == s;
      Some(l)
    else None
  }
}
