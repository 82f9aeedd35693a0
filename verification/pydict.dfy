/** Python dictionaries as the engine uses them: string keys mapped to a
    string or a list of strings, read with `dict.get(key, default)`,
    tested for truthiness, and interpolated into f-strings. */
module PyDict {
  import opened Results
  import opened PyText

  /** A dictionary value: a string, or a list of strings (the profile
      editor stores tool and specialisation lists this way). */
  datatype Value = Str(s: string) | Items(items: seq<string>)

  type Dict = map<string, Value>

  /** `d.get(key, default)`: the default is used only when the key is absent,
      never for a present but empty value. */
  function Get(d: Dict, key: string, default: Value): Value {
    if key in d then d[key] else default
  }

  /** `bool(v)`: the empty string and the empty list are falsy. */
  predicate Truthy(v: Value) {
    match v
    case Str(s) => s != ""
    case Items(xs) => xs != []
  }

  /** `f"{v}"`: a string verbatim; a list as `repr` writes it when no item
      needs escaping: each item in single quotes, unescaped. */
  function Display(v: Value): string {
    match v
    case Str(s) => s
    case Items(xs) => "[" + Join(", ", Quoted(xs)) + "]"
  }

  function Quoted(xs: seq<string>): seq<string> {
    seq(|xs|, i requires 0 <= i < |xs| => "'" + xs[i] + "'")
  }

  /** `[str(item) for item in v]`: iterating a string yields its characters. */
  function Iterated(v: Value): seq<string> {
    match v
    case Str(s) => seq(|s|, i requires 0 <= i < |s| => [s[i]])
    case Items(xs) => xs
  }

  /** The first key of `keys` that is not in `present`: the key a sequence of
      `d[key]` reads in that order fails on with KeyError. */
  function FirstAbsent(keys: seq<string>, present: set<string>): (r: Option<string>)
    ensures r.None? <==> forall k :: k in keys ==> k in present
    ensures r.Some? ==> exists i :: 0 <= i < |keys| && keys[i] == r.value && r.value !in present
                                 && forall j :: 0 <= j < i ==> keys[j] in present
  {
    if |keys| == 0 then None
    else if keys[0] !in present then Some(keys[0])
    else
      var r := FirstAbsent(keys[1..], present);
      assert keys == [keys[0]] + keys[1..];
      r
  }

  /** Which key is missing first depends only on which of `keys` are present. */
  lemma {:induction false} FirstAbsentAgrees(keys: seq<string>, a: set<string>, b: set<string>)
    requires forall k :: k in keys ==> (k in a <==> k in b)
    ensures FirstAbsent(keys, a) == FirstAbsent(keys, b)
  {
    if |keys| > 0 {
      assert keys[0] in keys;
      assert forall k :: k in keys[1..] ==> k in keys;
      FirstAbsentAgrees(keys[1..], a, b);
    }
  }

  /** A list always displays with a leading bracket, so a text that does not
      start with one can only be the display of that very string. */
  lemma DisplayOfStr(v: Value, s: string)
    requires s == "" || s[0] != '['
    ensures Display(v) == s ==> v == Str(s)
  {
    if v.Items? {
      var d := Display(v);
      assert d == "[" + (Join(", ", Quoted(v.items)) + "]");
      assert d[0] == '[';
    }
  }
}
