/** The landing page's translation function `t` (src/app/page.tsx): a
    dot-separated key walks down the nested message catalogue, a string found
    there has its `{name}` placeholders filled in, and anything else yields the
    key itself. */
module Translation {
  import opened Optional
  import opened JsString

  /** A node of the message catalogue: a string, a nested object, or any other
      JSON value (number, boolean, null, array). */
  datatype Msg = Str(text: string) | Obj(fields: map<string, Msg>) | Other

  /** The value reached from `value` by following `keys`, or `None` as soon as
      a key is missing or the current value is not an object. */
  function Lookup(value: Msg, keys: seq<string>): Option<Msg>
  {
    if keys == [] then Some(value)
    else match value
      case Obj(m) => if keys[0] in m then Lookup(m[keys[0]], keys[1..]) else None
      case _ => None
  }

  /** The text `{name}` that a parameter fills in. */
  function Placeholder(name: string): string {
    "{" + name + "}"
  }

  /** The `reduce` over the parameters: each one, in order, replaces the first
      `{name}` of the text accumulated so far. */
  function Substitute(s: string, params: seq<(string, string)>): string
    decreases |params|
  {
    if params == [] then s
    else Substitute(ReplaceFirst(s, Placeholder(params[0].0), params[0].1), params[1..])
  }

  /** What `t(key, params)` returns for the catalogue `messages`. */
  function TranslationOf(messages: Msg, key: string, params: seq<(string, string)>): string
  {
    match Lookup(messages, Split(key, '.'))
    case Some(Str(s)) => Substitute(s, params)
    case _ => key
  }

  /** `t(key, params)`: the cursor walk over the key's segments, then the fold
      over the parameters. */
  method Translate(messages: Msg, key: string, params: seq<(string, string)>) returns (r: string)
    ensures r == TranslationOf(messages, key, params)
  {
    var keys := Split(key, '.');
    var value := messages;
    var i := 0;
    while i < |keys|
      invariant 0 <= i <= |keys|
      invariant Lookup(messages, keys) == Lookup(value, keys[i..])
    {
      var k := keys[i];
      if value.Obj? && k in value.fields {
        assert keys[i..][1..] == keys[i + 1..];
        value := value.fields[k];
      } else {
        return key;
      }
      i := i + 1;
    }
    if !value.Str? {
      return key;
    }
    var acc := value.text;
    var j := 0;
    while j < |params|
      invariant 0 <= j <= |params|
      invariant Substitute(value.text, params) == Substitute(acc, params[j..])
    {
      assert params[j..][1..] == params[j + 1..];
      acc := ReplaceFirst(acc, Placeholder(params[j].0), params[j].1);
      j := j + 1;
    }
    r := acc;
  }

  /** The walk one segment further: from where `keys` lead, step into `k`. */
  lemma {:induction false} LookupAppend(value: Msg, keys: seq<string>, k: string)
    ensures Lookup(value, keys + [k])
            == match Lookup(value, keys)
               case Some(Obj(m)) => if k in m then Some(m[k]) else None
               case _ => None
  {
    if keys != [] {
      assert (keys + [k])[1..] == keys[1..] + [k];
      if value.Obj? && keys[0] in value.fields {
        LookupAppend(value.fields[keys[0]], keys[1..], k);
      }
    }
  }

  /** Once one segment cannot be followed (the value reached so far is not an
      object, or lacks that key), the whole walk fails. */
  lemma {:induction false} LookupStuck(value: Msg, keys: seq<string>, i: nat, w: Msg)
    requires i < |keys|
    requires Lookup(value, keys[..i]) == Some(w)
    requires !(w.Obj? && keys[i] in w.fields)
    ensures Lookup(value, keys) == None
  {
    if i > 0 {
      assert keys[..i][1..] == keys[1..][..i - 1];
      LookupStuck(value.fields[keys[0]], keys[1..], i - 1, w);
    }
  }

  /** `t` returns the key when some dot-segment is missing or is reached
      through a value that is not an object. */
  lemma MissingSegmentGivesKey(messages: Msg, key: string, params: seq<(string, string)>, i: nat, w: Msg)
    requires i < |Split(key, '.')|
    requires Lookup(messages, Split(key, '.')[..i]) == Some(w)
    requires !(w.Obj? && Split(key, '.')[i] in w.fields)
    ensures TranslationOf(messages, key, params) == key
  {
    LookupStuck(messages, Split(key, '.'), i, w);
  }

  /** `t` returns the key when the value the key leads to is not a string. */
  lemma NonStringGivesKey(messages: Msg, key: string, params: seq<(string, string)>, w: Msg)
    requires Lookup(messages, Split(key, '.')) == Some(w) && !w.Str?
    ensures TranslationOf(messages, key, params) == key
  {
  }

  /** The fold applies the parameters in order: the last one acts on the text
      the earlier ones produced. */
  lemma {:induction false} SubstituteLast(s: string, params: seq<(string, string)>, p: (string, string))
    ensures Substitute(s, params + [p]) == ReplaceFirst(Substitute(s, params), Placeholder(p.0), p.1)
    decreases |params|
  {
    if params != [] {
      assert (params + [p])[1..] == params[1..] + [p];
      SubstituteLast(ReplaceFirst(s, Placeholder(params[0].0), params[0].1), params[1..], p);
    }
  }

  /** A text in which no parameter's placeholder occurs is returned unchanged;
      in particular with no parameters at all. */
  lemma {:induction false} SubstituteWithoutPlaceholders(s: string, params: seq<(string, string)>)
    requires forall i, j :: 0 <= i < |params| ==> !OccursAt(s, Placeholder(params[i].0), j)
    ensures Substitute(s, params) == s
    decreases |params|
  {
    if params != [] {
      assert forall j :: !OccursAt(s, Placeholder(params[0].0), j);
      ReplaceAbsent(s, Placeholder(params[0].0), params[0].1);
      assert forall i, j :: 0 <= i < |params[1..]| ==> !OccursAt(s, Placeholder(params[1..][i].0), j) by {
        forall i, j | 0 <= i < |params[1..]| ensures !OccursAt(s, Placeholder(params[1..][i].0), j) {
          assert params[1..][i] == params[i + 1];
        }
      }
      SubstituteWithoutPlaceholders(s, params[1..]);
    }
  }

  /** One parameter whose value has no `$` replaces exactly the first `{name}`
      with its value; later occurrences stay as they are. */
  lemma SubstituteFirstOnly(s: string, name: string, value: string, k: nat)
    requires FirstOccurrence(s, Placeholder(name), k)
    requires '$' !in value
    ensures Substitute(s, [(name, value)])
            == s[..k] + value + s[k + |Placeholder(name)|..]
  {
    var ph := Placeholder(name);
    ReplaceAt(s, ph, value, k);
    ExpandPlain(value, ph, s[..k], s[k + |ph|..]);
    assert [(name, value)][1..] == [];
  }

  /** A key without dots names a top-level entry. */
  lemma TopLevelKey(m: map<string, Msg>, k: string, params: seq<(string, string)>)
    requires '.' !in k && k in m
    ensures TranslationOf(Obj(m), k, params)
            == if m[k].Str? then Substitute(m[k].text, params) else k
  {
    SplitNoSeparator(k, '.');
    assert [k][1..] == [];
    assert Lookup(m[k], []) == Some(m[k]);
    assert Lookup(Obj(m), [k]) == Some(m[k]);
  }

  /** A key `a.b` names entry `b` of the object under `a`. */
  lemma NestedKey(m: map<string, Msg>, a: string, b: string, params: seq<(string, string)>)
    requires '.' !in a && '.' !in b
    requires a in m && m[a].Obj? && b in m[a].fields
    ensures TranslationOf(Obj(m), a + "." + b, params)
            == if m[a].fields[b].Str? then Substitute(m[a].fields[b].text, params) else a + "." + b
  {
    var v := m[a].fields[b];
    SplitAfter(a, b, '.');
    SplitNoSeparator(b, '.');
    assert Split(a + "." + b, '.') == [a, b];
    assert [a, b][1..] == [b] && [b][1..] == [];
    assert Lookup(v, []) == Some(v);
    assert Lookup(m[a], [b]) == Some(v);
    assert Lookup(Obj(m), [a, b]) == Some(v);
  }

  /** `common.appName` walks into the nested `common` object. */
  lemma NestedKeyExample()
    ensures TranslationOf(Obj(map["common" := Obj(map["appName" := Str("DeepWiki")])]), "common.appName", [])
            == "DeepWiki"
  {
    var m := map["common" := Obj(map["appName" := Str("DeepWiki")])];
    assert "common.appName" == "common" + "." + "appName";
    NestedKey(m, "common", "appName", []);
    assert m["common"].fields["appName"] == Str("DeepWiki");
  }

  /** A key that goes on through a string gives the key back. */
  lemma KeyThroughStringExample()
    ensures TranslationOf(Obj(map["a" := Str("s")]), "a.b", []) == "a.b"
  {
    assert "a.b" == "a" + ['.'] + "b";
    SplitAfter("a", "b", '.');
    SplitNoSeparator("b", '.');
  }

  /** A one-entry catalogue: its key without dots yields its text, filled in. */
  lemma SingleEntry(k: string, text: string, params: seq<(string, string)>)
    requires '.' !in k
    ensures TranslationOf(Obj(map[k := Str(text)]), k, params) == Substitute(text, params)
  {
    TopLevelKey(map[k := Str(text)], k, params);
  }

  /** One parameter whose placeholder opens the text. */
  lemma SubstituteAtStart(name: string, value: string, t: string)
    ensures Substitute(Placeholder(name) + t, [(name, value)])
            == Expand(value, Placeholder(name), "", t) + t
  {
    assert [(name, value)][1..] == [];
    ReplaceAtStart(Placeholder(name), t, value);
  }

  /** A later parameter can fill a placeholder that an earlier value put in:
      with `{a}` the text, `a` set to `{b}` and then `b` set to `x`, the result
      is `x`. */
  lemma LaterParameterSeesEarlierValue(k: string, a: string, b: string, x: string)
    requires '.' !in k && '$' !in b && '$' !in x
    ensures TranslationOf(Obj(map[k := Str(Placeholder(a))]), k, [(a, Placeholder(b)), (b, x)]) == x
  {
    SingleEntry(k, Placeholder(a), [(a, Placeholder(b)), (b, x)]);
    Chain(a, b, x);
  }

  /** The value of the first parameter is the placeholder of the second, which
      the second then fills. */
  lemma Chain(a: string, b: string, x: string)
    requires '$' !in b && '$' !in x
    ensures Substitute(Placeholder(a), [(a, Placeholder(b)), (b, x)]) == x
  {
    var ps := [(a, Placeholder(b)), (b, x)];
    assert ps[1..] == [(b, x)] && ps[1..][1..] == [];
    ChainStep(a, Placeholder(b));
    ChainStep(b, x);
    assert Substitute(Placeholder(b), [(b, x)]) == Substitute(x, []) == x;
    assert Substitute(Placeholder(a), ps) == Substitute(Placeholder(b), [(b, x)]);
  }

  /** One placeholder alone is replaced by a value without `$`. */
  lemma ChainStep(name: string, value: string)
    requires '$' !in value
    ensures ReplaceFirst(Placeholder(name), Placeholder(name), value) == value
  {
    ReplaceAtStart(Placeholder(name), "", value);
    assert Placeholder(name) + "" == Placeholder(name);
    ExpandPlain(value, Placeholder(name), "", "");
  }

  /** `$&` in a value stands for the matched placeholder, as in any
      JavaScript string replacement: the value `$&$&` doubles the placeholder. */
  lemma DollarPatternDoubles(k: string, name: string, t: string)
    requires '.' !in k
    ensures TranslationOf(Obj(map[k := Str(Placeholder(name) + t)]), k, [(name, "$&$&")])
            == Placeholder(name) + Placeholder(name) + t
  {
    SingleEntry(k, Placeholder(name) + t, [(name, "$&$&")]);
    SubstituteAtStart(name, "$&$&", t);
    DoubleMatch(Placeholder(name), t);
  }

  /** `$&$&` expands to the match twice. */
  lemma DoubleMatch(matched: string, after: string)
    ensures Expand("$&$&", matched, "", after) == matched + matched
  {
    assert "$&$&"[2..] == "$&" && "$&"[2..] == "";
    assert Expand("", matched, "", after) == "";
    assert Expand("$&", matched, "", after) == matched;
  }
}
