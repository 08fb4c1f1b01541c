/** The categorical-string table lookup both entry points perform. */
module Categories {
  import opened Wrappers
  import opened Text

  /** `low_val in mapping` followed by `float(mapping[low_val])`, where
      `low_val` is `raw.lower().strip()`. */
  function Lookup(table: map<string, int>, raw: string): (r: Option<real>)
    ensures r.Some? <==> Normalize(raw) in table
  {
    var key := Normalize(raw);
    if key in table then Some(table[key] as real) else None
  }

  /** Table lookup is insensitive to letter case and surrounding whitespace. */
  lemma LookupIgnoresCaseAndPadding(table: map<string, int>, p: string, s: string, t: string, q: string)
    requires IsBlank(p) && IsBlank(q) && SameIgnoringCase(s, t)
    ensures Lookup(table, p + s + q) == Lookup(table, t)
  {
    NormalizeIgnoresCaseAndPadding(p, s, t, q);
  }

  /** A string whose normal form is a key is found with that key's code. */
  lemma LookupByNormalForm(table: map<string, int>, raw: string, key: string)
    requires Normalize(raw) == key && key in table
    ensures Lookup(table, raw) == Some(table[key] as real)
  {
  }
}
