/**
 * Document ids.  A table is a sequence of rows and a row's id is its
 * position; a key string carries the id in decimal, and reading a key back
 * looks the id up again, so a string naming no row reads as a missing
 * document (`ctx.db.get` returning `null`).
 */
module Documents {
  import opened Wrappers
  import opened JsStrings

  /** The text of an id inside a custom key. */
  function IdText(id: nat): (s: string)
    ensures |s| > 0 && AllDigits(s)
  {
    NatToString(id)
  }

  /** The id a string names, if it is the text of one. */
  function IdOf(s: string): (r: Option<nat>)
    ensures r.Some? ==> IdText(r.value) == s
  {
    if |s| > 0 && AllDigits(s) && NatToString(ParseDigits(s)) == s then Some(ParseDigits(s)) else None
  }

  /** Reading an id's text gives the id back. */
  lemma IdRoundTrip(id: nat)
    ensures IdOf(IdText(id)) == Some(id)
  {
    ParseNatToString(id);
  }

  /** An id's text never holds the separator of a custom key. */
  lemma IdTextNoColon(id: nat)
    ensures ':' !in IdText(id)
  {
  }

  /** Two ids with the same text are the same id. */
  lemma IdTextInjective(a: nat, b: nat)
    requires IdText(a) == IdText(b)
    ensures a == b
  {
    IdRoundTrip(a);
    IdRoundTrip(b);
  }
}
