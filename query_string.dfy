/** The query string both clients append to their URLs: the `**params` dict rendered as
    `k=v` pairs joined by `&`, in insertion order, leaving out the pairs whose value is
    None. `Decode` reads such a string back, to state what the rendering preserves. */
module QueryString {
  import opened Outcomes

  /** A `**params` dict: keys in insertion order, each with a str value or None.
      Values are already rendered with `str()`. */
  type Params = seq<(string, Option<string>)>

  function Keys(params: Params): seq<string>
    decreases |params|
  {
    if params == [] then [] else [params[0].0] + Keys(params[1..])
  }

  /** `params.get(key)` as the dict sees it: absent, or present with a value or None. */
  function Find(params: Params, key: string): Option<Option<string>>
    decreases |params|
  {
    if params == [] then None
    else if params[0].0 == key then Some(params[0].1)
    else Find(params[1..], key)
  }

  /** The pairs whose value is not None, in order. */
  function Present(params: Params): seq<(string, string)>
    decreases |params|
  {
    if params == [] then []
    else
      (if params[0].1.Some? then [(params[0].0, params[0].1.value)] else [])
      + Present(params[1..])
  }

  function Field(pair: (string, string)): string {
    pair.0 + "=" + pair.1
  }

  /** `"&".join(k + "=" + v for (k, v) in pairs)` */
  function Encode(pairs: seq<(string, string)>): string
    decreases |pairs|
  {
    if pairs == [] then ""
    else if |pairs| == 1 then Field(pairs[0])
    else Field(pairs[0]) + "&" + Encode(pairs[1..])
  }

  /** The query string: a `key=value` field for each parameter that is not None, in
      order, joined by `&`. */
  function Render(params: Params): string {
    Encode(Present(params))
  }

  /** `params[key] = value`: an existing key keeps its place and takes the new value,
      a new key goes last. */
  function Set(params: Params, key: string, value: Option<string>): (r: Params)
    ensures key in Keys(params) ==> Keys(r) == Keys(params)
    ensures key !in Keys(params) ==> r == params + [(key, value)]
    ensures Find(r, key) == Some(value)
    ensures forall other :: other != key ==> Find(r, other) == Find(params, other)
    decreases |params|
  {
    if params == [] then [(key, value)]
    else if params[0].0 == key then [(key, value)] + params[1..]
    else [params[0]] + Set(params[1..], key, value)
  }

  lemma {:induction false} PresentAppend(a: Params, b: Params)
    ensures Present(a + b) == Present(a) + Present(b)
    decreases |a|
  {
    if a == [] {
      assert a + b == b;
    } else {
      assert (a + b)[0] == a[0] && (a + b)[1..] == a[1..] + b;
      PresentAppend(a[1..], b);
      var head := if a[0].1.Some? then [(a[0].0, a[0].1.value)] else [];
      assert Present(a + b) == head + Present(a[1..] + b);
      assert Present(a) == head + Present(a[1..]);
    }
  }

  /** The index of the first `c` in `s`. */
  function IndexOf(s: string, c: char): (i: nat)
    requires c in s
    ensures i < |s| && s[i] == c && c !in s[..i]
  {
    if s[0] == c then 0 else 1 + IndexOf(s[1..], c)
  }

  /** A field `k=v` split at its first `=`. */
  function SplitField(f: string): (string, string) {
    if '=' in f then (f[..IndexOf(f, '=')], f[IndexOf(f, '=') + 1..]) else (f, "")
  }

  /** The `&`-separated fields of a non-empty query string, each split at its first `=`. */
  function DecodeFields(s: string): seq<(string, string)>
    decreases |s|
  {
    if '&' !in s then [SplitField(s)]
    else [SplitField(s[..IndexOf(s, '&')])] + DecodeFields(s[IndexOf(s, '&') + 1..])
  }

  function Decode(s: string): seq<(string, string)> {
    if s == "" then [] else DecodeFields(s)
  }

  /** Keys and values that rendering cannot confuse: no `&` anywhere and no `=` in a key. */
  predicate Plain(pairs: seq<(string, string)>) {
    forall k :: 0 <= k < |pairs| ==> '&' !in pairs[k].0 && '=' !in pairs[k].0 && '&' !in pairs[k].1
  }

  /** The first `c` is at `j` when `j` holds a `c` and nothing before it does. */
  lemma {:induction false} IndexOfAt(s: string, c: char, j: nat)
    requires j < |s| && s[j] == c && c !in s[..j]
    ensures IndexOf(s, c) == j
    decreases j
  {
    if j > 0 {
      assert s[0] in s[..j];
      assert s[1..][..j - 1] == s[1..j];
      assert forall x :: x in s[1..j] ==> x in s[..j];
      IndexOfAt(s[1..], c, j - 1);
    }
  }

  lemma SplitFieldOf(pair: (string, string))
    requires '=' !in pair.0
    ensures SplitField(Field(pair)) == pair
  {
    var f := Field(pair);
    assert f[..|pair.0|] == pair.0;
    IndexOfAt(f, '=', |pair.0|);
    assert f[|pair.0| + 1..] == pair.1;
  }

  lemma FieldPlain(pair: (string, string))
    requires '&' !in pair.0 && '&' !in pair.1
    ensures '&' !in Field(pair) && Field(pair) != ""
  {
    var f := Field(pair);
    forall i | 0 <= i < |f|
      ensures f[i] != '&'
    {
      if i < |pair.0| {
        assert f[i] == pair.0[i];
      } else if i > |pair.0| {
        assert f[i] == pair.1[i - |pair.0| - 1];
      }
    }
  }

  /** Reading a string stops its first field at the first `&`. */
  lemma DecodeCons(head: string, rest: string)
    requires '&' !in head && rest != ""
    ensures Decode(head + "&" + rest) == [SplitField(head)] + Decode(rest)
  {
    var s := head + "&" + rest;
    assert s[..|head|] == head && s[|head| + 1..] == rest;
    IndexOfAt(s, '&', |head|);
  }

  lemma PlainTail(pairs: seq<(string, string)>)
    requires pairs != [] && Plain(pairs)
    ensures Plain(pairs[1..])
  {
    forall k | 0 <= k < |pairs| - 1
      ensures '&' !in pairs[1..][k].0 && '=' !in pairs[1..][k].0 && '&' !in pairs[1..][k].1
    {
      assert pairs[1..][k] == pairs[k + 1];
    }
  }

  /** The query string reads back as the pairs it was built from. */
  lemma {:induction false} DecodeEncode(pairs: seq<(string, string)>)
    requires Plain(pairs)
    ensures Decode(Encode(pairs)) == pairs
    decreases |pairs|
  {
    if pairs != [] {
      SplitFieldOf(pairs[0]);
      FieldPlain(pairs[0]);
      if |pairs| > 1 {
        PlainTail(pairs);
        DecodeEncode(pairs[1..]);
        FieldPlain(pairs[1]);
        assert Encode(pairs[1..]) != "";
        DecodeCons(Field(pairs[0]), Encode(pairs[1..]));
        assert pairs == [pairs[0]] + pairs[1..];
      }
    }
  }
}
