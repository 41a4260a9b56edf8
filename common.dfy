/** Shared vocabulary: optional values, the errors the Python code can raise while
    processing a match, and the few string operations it relies on. */
module Common {

  datatype Option<T> = None | Some(value: T)

  /** What aborts the processing of a match. Each constructor names the Python exception
      (or the numpy failure) it stands for. */
  datatype Error =
    | KeyError        // a dict or column lookup with a missing key
    | IndexError      // `.values[0]` on an empty selection
    | UnboundLocal    // a local variable read before any assignment
    | Unresolved      // find_name's TypeError: the name is in neither lineup
    | ValueError      // int()/datetime() rejecting a value, or an explicit `raise ValueError`
    | ShapeMismatch   // numpy refusing to add arrays of different lengths
    | AssertionFailed // an `assert` statement that fails
    | AttributeError  // an attribute read before it is set (transform before fit)

  datatype Result<T> = Ok(value: T) | Err(error: Error) {
    predicate IsFailure() { Err? }
    function PropagateFailure<U>(): Result<U>
      requires Err?
    {
      Err(error)
    }
    function Extract(): T
      requires Ok?
    {
      value
    }
  }

  /** `d.get(k, default)` */
  function Get<K, V>(m: map<K, V>, k: K, default: V): (v: V)
    ensures k in m ==> v == m[k]
    ensures k !in m ==> v == default
  {
    if k in m then m[k] else default
  }

  /** A boolean-mask selection `df.loc[mask]`: the elements that satisfy `p`, in order. */
  function Filter<T(==,!new)>(s: seq<T>, p: T -> bool): (r: seq<T>)
    ensures |r| <= |s|
    decreases |s|
  {
    if s == [] then [] else (if p(s[0]) then [s[0]] else []) + Filter(s[1..], p)
  }

  /** The selection keeps exactly the elements that satisfy `p`. */
  lemma {:induction false} FilterMembers<T(!new)>(s: seq<T>, p: T -> bool)
    ensures forall x :: x in Filter(s, p) <==> x in s && p(x)
    decreases |s|
  {
    if s != [] {
      FilterMembers(s[1..], p);
      assert s == [s[0]] + s[1..];
    }
  }

  /** `text.find(pat) != -1`: `pat` occurs somewhere in `text`. */
  predicate Contains(text: string, pat: string)
    decreases |text|
  {
    pat <= text || (|text| > 0 && Contains(text[1..], pat))
  }

  /** Python's ordering of strings (code point by code point, a prefix first): `a <= b`. */
  predicate StrLe(a: string, b: string)
    decreases |a|
  {
    if a == [] then true
    else if b == [] then false
    else if a[0] != b[0] then a[0] < b[0]
    else StrLe(a[1..], b[1..])
  }

  /** The characters `str.split()` separates on: Python's white space, which goes beyond
      ASCII (the information separators, NEL, no-break space and the Unicode spaces). */
  predicate IsSpace(c: char) {
    || c == ' ' || '\t' <= c <= '\r' || '\U{001C}' <= c <= '\U{001F}'
    || c == '\U{0085}' || c == '\U{00A0}' || c == '\U{1680}' || '\U{2000}' <= c <= '\U{200A}'
    || c == '\U{2028}' || c == '\U{2029}' || c == '\U{202F}' || c == '\U{205F}' || c == '\U{3000}'
  }

  /** The longest prefix of `s` without white space. */
  function WordPrefix(s: string): (w: string)
    ensures w <= s
    ensures forall i :: 0 <= i < |w| ==> !IsSpace(w[i])
    ensures |w| < |s| ==> IsSpace(s[|w|])
    decreases |s|
  {
    if s == [] || IsSpace(s[0]) then [] else [s[0]] + WordPrefix(s[1..])
  }

  /** `s.split()`: the maximal runs of non-white-space characters, in order. */
  function Words(s: string): (ws: seq<string>)
    ensures forall i :: 0 <= i < |ws| ==> ws[i] != []
    ensures forall i, j :: 0 <= i < |ws| && 0 <= j < |ws[i]| ==> !IsSpace(ws[i][j])
    decreases |s|
  {
    if s == [] then []
    else if IsSpace(s[0]) then Words(s[1..])
    else
      var w := WordPrefix(s);
      [w] + Words(s[|w|..])
  }

  /** `s` with its white space taken out. */
  function Squeeze(s: string): string
    decreases |s|
  {
    if s == [] then [] else (if IsSpace(s[0]) then [] else [s[0]]) + Squeeze(s[1..])
  }

  /** The words one after the other. */
  function Flatten(ws: seq<string>): string
    decreases |ws|
  {
    if ws == [] then [] else ws[0] + Flatten(ws[1..])
  }

  /** The words of `s`, put back together, are `s` without its white space: no
      character is lost, added or reordered. */
  lemma {:induction false} WordsSqueeze(s: string)
    ensures Flatten(Words(s)) == Squeeze(s)
    decreases |s|
  {
    if s == [] {
    } else if IsSpace(s[0]) {
      WordsSqueeze(s[1..]);
    } else {
      var w := WordPrefix(s);
      SqueezeWord(s);
      WordsSqueeze(s[|w|..]);
      var ws := [w] + Words(s[|w|..]);
      assert ws[0] == w && ws[1..] == Words(s[|w|..]);
    }
  }

  /** Squeezing reads the first word and then squeezes the rest. */
  lemma {:induction false} SqueezeWord(s: string)
    ensures Squeeze(s) == WordPrefix(s) + Squeeze(s[|WordPrefix(s)|..])
    decreases |s|
  {
    if s == [] || IsSpace(s[0]) {
      assert s[0..] == s;
    } else {
      SqueezeWord(s[1..]);
      var w := WordPrefix(s[1..]);
      assert s[|w| + 1..] == s[1..][|w|..];
    }
  }
}
