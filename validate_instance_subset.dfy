/**
 * The product name validator: a product name must be present, be a
 * string, be non-empty and use only ASCII letters, digits and `_`.
 */
module ValidateInstanceSubset {
  import opened Strs
  import opened PyData

  /** The `allowed` set: ASCII lower and upper case letters, digits and underscore. */
  predicate Allowed(c: char) {
    'a' <= c <= 'z' || 'A' <= c <= 'Z' || '0' <= c <= '9' || c == '_'
  }

  /** `validate_name`: every character is allowed. */
  predicate ValidateName(name: string) {
    forall i :: 0 <= i < |name| ==> Allowed(name[i])
  }

  /** The empty name passes `validate_name`: `all` of nothing is true. */
  lemma EmptyNameValid()
    ensures ValidateName("")
  { }

  /** A concatenation is valid exactly when both parts are. */
  lemma ValidConcat(a: string, b: string)
    ensures ValidateName(a + b) <==> ValidateName(a) && ValidateName(b)
  {
    if ValidateName(a + b) {
      forall i | 0 <= i < |a| ensures Allowed(a[i]) {
        assert (a + b)[i] == a[i];
      }
      forall i | 0 <= i < |b| ensures Allowed(b[i]) {
        assert (a + b)[|a| + i] == b[i];
      }
    }
    if ValidateName(a) && ValidateName(b) {
      forall i | 0 <= i < |a + b| ensures Allowed((a + b)[i]) {
        if i >= |a| {
          assert (a + b)[i] == b[i - |a|];
        }
      }
    }
  }

  /** Allowed characters are exactly the ASCII alphanumerics and `_`. */
  lemma AllowedIsAlnum(c: char)
    ensures Allowed(c) <==> IsAsciiAlnum(c) || c == '_'
  { }

  /** Why `process` raises, or that it passes. */
  datatype Verdict = Passed | MissingName | NotAString | EmptyName | InvalidCharacters

  /** `process` on `instance.data.get("productName", None)`. */
  function Process(productName: Option<Value>): (r: Verdict)
    ensures r == Passed <==> productName.Some? && productName.value.VStr?
                             && |productName.value.s| > 0 && ValidateName(productName.value.s)
    ensures r == MissingName <==> productName.None? || productName == Some(VNone)
  {
    match productName
    case None => MissingName
    case Some(VNone) => MissingName
    case Some(VStr(s)) =>
      if |s| == 0 then EmptyName
      else if !ValidateName(s) then InvalidCharacters
      else Passed
    case Some(_) => NotAString
  }

  /** The empty string is refused even though `validate_name` accepts it. */
  lemma EmptyRefused()
    ensures Process(Some(VStr(""))) == EmptyName
  { }

  /** A name with a character outside the alphabet is refused for its characters. */
  lemma BadCharacterRefused(pre: string, c: char, post: string)
    requires !Allowed(c)
    ensures Process(Some(VStr(pre + [c] + post))) == InvalidCharacters
  {
    assert (pre + [c] + post)[|pre|] == c;
  }

  /** A non-string product name is refused as such. */
  lemma NonStringRefused(v: Value)
    requires !v.VStr? && !v.VNone?
    ensures Process(Some(v)) == NotAString
  { }
}
