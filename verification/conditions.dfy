/** The condition codes a listing or a preference carries, and the
    Portuguese labels the pages show for them. */
module Conditions {

  /** The codes in the order the listing form and the onboarding offer them. */
  const Codes: seq<string> := ["novo", "semi", "pecas"]

  /** `labelCond`: `semi` reads "seminovo", `pecas` reads "peças", and every
      other code, known or not, reads "novo". */
  function Label(code: string): (shown: string)
    ensures shown in {"novo", "seminovo", "peças"}
    ensures shown == "seminovo" <==> code == "semi"
    ensures shown == "peças" <==> code == "pecas"
  {
    if code == "semi" then "seminovo"
    else if code == "pecas" then "peças"
    else "novo"
  }

  /** The three known codes get three different labels, and any unknown
      code is shown exactly like `novo`. */
  lemma LabelSeparatesCodes(c1: string, c2: string)
    ensures c1 in Codes && c2 in Codes && Label(c1) == Label(c2) ==> c1 == c2
    ensures c1 !in Codes ==> Label(c1) == Label("novo")
  {
  }
}
