/** Values read back from the database's json/jsonb columns, and the API's
    `_normalize_json` coercion of them into a dictionary. */
module JsonValues {
  import opened Wrappers

  /** The Python values the database driver may hand back for a json column:
      `None`, a `dict`, a `str`, or anything else, whose `str()` rendering is
      carried along because rendering it is the only thing the code does with it. */
  datatype PyValue =
    | PyNone
    | PyDict(entries: map<string, PyValue>)
    | PyStr(s: string)
    | PyOther(repr: string)

  /** The dictionary that wraps a value the coercion could not interpret. */
  function RawWrapper(text: string): PyValue {
    PyDict(map["raw" := PyStr(text)])
  }

  /** `_normalize_json(val)`, with `json.loads` passed in as `parse` (it returns
      `None` where `json.loads` raises). */
  function NormalizeJson(val: PyValue, parse: string -> Option<PyValue>): (r: PyValue)
    ensures val.PyNone? ==> r == PyDict(map[])
    ensures val.PyDict? ==> r == val
    ensures val.PyStr? ==> r == (if parse(val.s).Some? then parse(val.s).value else RawWrapper(val.s))
    ensures val.PyOther? ==> r == RawWrapper(val.repr)
  {
    match val
    case PyNone => PyDict(map[])
    case PyDict(_) => val
    case PyStr(s) =>
      (match parse(s)
       case Some(decoded) => decoded
       case None => RawWrapper(s))
    case PyOther(text) => RawWrapper(text)
  }

  /** The coercion yields a dictionary in every case except one: a string that
      parses as JSON whose top-level value is not an object (`"[1]"`, `"null"`). */
  lemma NormalizeJsonIsDict(val: PyValue, parse: string -> Option<PyValue>)
    ensures NormalizeJson(val, parse).PyDict?
        <==> !(val.PyStr? && parse(val.s).Some? && !parse(val.s).value.PyDict?)
  {
  }

  /** Normalising an already normalised dictionary changes nothing. */
  lemma NormalizeJsonIdempotent(val: PyValue, parse: string -> Option<PyValue>)
    requires NormalizeJson(val, parse).PyDict?
    ensures NormalizeJson(NormalizeJson(val, parse), parse) == NormalizeJson(val, parse)
  {
  }

  /** Whenever the value is wrapped under "raw", the wrapper holds the original
      text unchanged: nothing is lost. */
  lemma NormalizeJsonKeepsRawText(val: PyValue, parse: string -> Option<PyValue>)
    requires val.PyOther? || (val.PyStr? && parse(val.s).None?)
    ensures var r := NormalizeJson(val, parse);
            r.PyDict? && r.entries.Keys == {"raw"}
            && r.entries["raw"] == PyStr(if val.PyStr? then val.s else val.repr)
  {
  }
}
