/**
 * `idParamSchema` (src/server/validation/idParam.ts): `params.id` must be a string whose
 * `Number()` value is not NaN and is greater than 0. The string itself is the output.
 */
module IdParam {
  import opened Common
  import opened Http
  import opened JsNumber

  /** The `params` object of a request, with its one key. */
  datatype IdParams = IdParams(id: Option<string>)

  const IdMessage: string := "ID must be an integer"

  /** `idParamSchema.shape.params.parseAsync`. */
  function ParseIdParams(p: IdParams): (r: Parsed<IdParams>)
    ensures r.Parsed? <==> (p.id.Some? && ToNumber(p.id.value).Int? && ToNumber(p.id.value).value > 0)
    ensures r.Parsed? ==> r.value == p
    ensures r.Rejected? && p.id.Some? ==> r.issues == [Issue(["id"], IdMessage)]
    ensures !r.Thrown?
  {
    match p.id
    case None => Rejected([Issue(["id"], "Required")])
    case Some(s) =>
      var n := ToNumber(s);
      if n.Int? && n.value > 0 then Parsed(p) else Rejected([Issue(["id"], IdMessage)])
  }

  /** Every positive integer, written in decimal, is accepted and returned as the same string. */
  lemma AcceptsPositive(n: int)
    requires n > 0
    ensures ParseIdParams(IdParams(Some(IntToDecimal(n)))) == Parsed(IdParams(Some(IntToDecimal(n))))
  {
    ToNumberOfDecimal(n);
  }

  /** "0" and every negative integer are rejected with the integer message. */
  lemma RejectsNonPositive(n: int)
    requires n <= 0
    ensures ParseIdParams(IdParams(Some(IntToDecimal(n)))) == Rejected([Issue(["id"], IdMessage)])
  {
    ToNumberOfDecimal(n);
  }

  /** A string with a letter in it is rejected, and so is the empty string (it is 0). */
  lemma RejectsNonNumeric(s: string, i: nat)
    requires i < |Trim(s)| && (IsLower(Trim(s)[i]) || IsUpper(Trim(s)[i]))
    ensures ParseIdParams(IdParams(Some(s))) == Rejected([Issue(["id"], IdMessage)])
    ensures ParseIdParams(IdParams(Some(""))) == Rejected([Issue(["id"], IdMessage)])
  {
    LetterMakesNaN(s, i);
  }
}
