/**
 * The key/value configuration: the `${NAME}` / `${NAME||default}` placeholder
 * expansion applied to every value at load time, and the lookup by key.
 */
module Config {
  import opened Wrappers

  /** The process environment as os.Getenv sees it. */
  type Env = map<string, string>

  /** os.Getenv: an unset variable, and the empty name, read as "". */
  function Getenv(env: Env, name: string): (r: string)
    ensures r != "" ==> name != "" && name in env && r == env[name]
    ensures name == "" || name !in env ==> r == ""
    ensures name != "" && name in env ==> r == env[name]
  {
    if name != "" && name in env then env[name] else ""
  }

  /** A value of placeholder shape: at least "${}", starting "${" and ending "}". */
  predicate Delimited(v: string) {
    |v| >= 3 && v[0] == '$' && v[1] == '{' && v[|v| - 1] == '}'
  }

  /** The scan stops at position i: "||" starts there, or "}" is there. */
  predicate StopsAt(v: string, i: nat)
    requires i < |v|
  {
    (v[i] == '|' && i + 1 < |v| && v[i + 1] == '|') || v[i] == '}'
  }

  /** The first position at or after `from` where the scan stops, or |v| when there is none. */
  function FirstStop(v: string, from: nat): (r: nat)
    requires from <= |v|
    ensures from <= r <= |v|
    ensures r < |v| ==> StopsAt(v, r)
    ensures forall j :: from <= j < r ==> !StopsAt(v, j)
    decreases |v| - from
  {
    if from == |v| then from
    else if StopsAt(v, from) then from
    else FirstStop(v, from + 1)
  }

  /** A stop with no stop before it is the first stop. */
  lemma FirstStopAt(v: string, from: nat, i: nat)
    requires from <= i < |v|
    requires StopsAt(v, i)
    requires forall j :: from <= j < i ==> !StopsAt(v, j)
    ensures FirstStop(v, from) == i
  {
  }

  /**
   * In a delimited value the scan from index 2 always stops before the end,
   * and when it stops at "||" the default's slice [i+2, |v|-1] is in bounds.
   */
  lemma ScanStopsInBounds(v: string)
    requires Delimited(v)
    ensures FirstStop(v, 2) < |v|
    ensures v[FirstStop(v, 2)] == '|' ==> FirstStop(v, 2) + 2 <= |v| - 1
  {
    assert StopsAt(v, |v| - 1);
  }

  /** The variable name and default value a placeholder names. */
  datatype Placeholder = Placeholder(name: string, fallback: string)

  /** The placeholder a value spells, or None when it does not have placeholder shape. */
  function ParsePlaceholder(v: string): (p: Option<Placeholder>)
    ensures p.Some? <==> Delimited(v)
  {
    if !Delimited(v) then None
    else
      ScanStopsInBounds(v);
      var i := FirstStop(v, 2);
      if v[i] == '|' then Some(Placeholder(v[2..i], v[i + 2..|v| - 1]))
      else Some(Placeholder(v[2..i], ""))
  }

  /** The value a configured string expands to in environment `env`. */
  function Expansion(env: Env, v: string): string {
    match ParsePlaceholder(v)
    case None => v
    case Some(p) => if Getenv(env, p.name) != "" then Getenv(env, p.name) else p.fallback
  }

  /**
   * expandValueEnv: scans a `${...}` value for the first "||" or "}" and looks
   * the name up in the environment, falling back to the default.
   */
  method ExpandValueEnv(env: Env, value: string) returns (realValue: string)
    ensures realValue == Expansion(env, value)
  {
    realValue := value;
    var vLen := |value|;
    if vLen < 3 {
      return;
    }
    if value[0] != '$' || value[1] != '{' || value[vLen - 1] != '}' {
      return;
    }
    var key := "";
    var defaultV := "";
    var i := 2;
    while i < vLen
      invariant 2 <= i < vLen
      invariant forall j :: 2 <= j < i ==> !StopsAt(value, j)
      invariant key == "" && defaultV == ""
    {
      if value[i] == '|' && (i + 1 < vLen && value[i + 1] == '|') {
        FirstStopAt(value, 2, i);
        key := value[2..i];
        defaultV := value[i + 2..vLen - 1];
        break;
      } else if value[i] == '}' {
        FirstStopAt(value, 2, i);
        key := value[2..i];
        break;
      }
      i := i + 1;
    }
    realValue := Getenv(env, key);
    if realValue == "" {
      realValue := defaultV;
    }
  }

  /** A value too short to hold "${}" is kept as it is. */
  lemma ShortValueUnchanged(env: Env, v: string)
    requires |v| < 3
    ensures Expansion(env, v) == v
  {
  }

  /** A value that does not start with "${" or does not end with "}" is kept as it is. */
  lemma UndelimitedValueUnchanged(env: Env, v: string)
    requires |v| >= 3
    requires v[0] != '$' || v[1] != '{' || v[|v| - 1] != '}'
    ensures Expansion(env, v) == v
  {
  }

  /**
   * `${NAME||DEF}` where the first "||" comes before any "}": the name is the
   * text between "${" and that "||", the default the text after it up to the
   * final "}"; a set, non-empty variable wins over the default.
   */
  lemma ExpandWithDefault(env: Env, v: string, i: nat)
    requires Delimited(v)
    requires 2 <= i && i + 1 < |v| && v[i] == '|' && v[i + 1] == '|'
    requires forall j :: 2 <= j < i ==> v[j] != '}' && !(v[j] == '|' && v[j + 1] == '|')
    ensures i + 2 <= |v| - 1
    ensures Getenv(env, v[2..i]) != "" ==> Expansion(env, v) == Getenv(env, v[2..i])
    ensures Getenv(env, v[2..i]) == "" ==> Expansion(env, v) == v[i + 2..|v| - 1]
  {
    FirstStopAt(v, 2, i);
  }

  /**
   * When a "}" comes before any "||", the name is the text up to that first
   * "}" and the default is empty, whatever follows.
   */
  lemma ExpandWithoutDefault(env: Env, v: string, i: nat)
    requires Delimited(v)
    requires 2 <= i < |v| && v[i] == '}'
    requires forall j :: 2 <= j < i ==> v[j] != '}' && !(v[j] == '|' && v[j + 1] == '|')
    ensures Expansion(env, v) == Getenv(env, v[2..i])
  {
    FirstStopAt(v, 2, i);
  }

  /** "${A}||b}" looks up A with an empty default: unset A gives "". */
  lemma BraceBeforeBarsExample(env: Env)
    requires "A" !in env
    ensures Expansion(env, "${A}||b}") == ""
  {
    var v := "${A}||b}";
    assert v[2..3] == "A";
    ExpandWithoutDefault(env, v, 3);
  }

  /** "${FOO||bar}" reads FOO when it is set and non-empty, and "bar" otherwise. */
  lemma DefaultExample(env: Env)
    ensures Getenv(env, "FOO") != "" ==> Expansion(env, "${FOO||bar}") == env["FOO"]
    ensures Getenv(env, "FOO") == "" ==> Expansion(env, "${FOO||bar}") == "bar"
  {
    var v := "${FOO||bar}";
    assert v[2..5] == "FOO" && v[7..10] == "bar";
    ExpandWithDefault(env, v, 5);
  }

  /**
   * An empty name ("${}", "${||d}") never reads the environment: the result
   * is the default, or "" when there is none.
   */
  lemma EmptyNameGivesDefault(env: Env, v: string, i: nat)
    requires Delimited(v)
    requires i == 2 && i + 1 < |v| && v[i] == '|' && v[i + 1] == '|'
    ensures Expansion(env, v) == v[i + 2..|v| - 1]
  {
    ExpandWithDefault(env, v, i);
    assert v[2..i] == "";
  }

  /** "${||d}" gives "d" even when the environment has an entry under the empty name. */
  lemma EmptyNameExample()
    ensures Expansion(map["" := "x"], "${||d}") == "d"
  {
    var v := "${||d}";
    assert v[4..5] == "d";
    EmptyNameGivesDefault(map["" := "x"], v, 2);
  }

  /** The keys among `keys` whose expansion differs from their value, in order. */
  ghost function Rewritten(env: Env, keys: seq<string>, values: map<string, string>): seq<string> {
    if keys == [] then []
    else
      var k := keys[|keys| - 1];
      Rewritten(env, keys[..|keys| - 1], values)
        + (if k in values && Expansion(env, values[k]) != values[k] then [k] else [])
  }

  lemma RewrittenStep(env: Env, keys: seq<string>, values: map<string, string>, n: nat)
    requires n < |keys|
    ensures Rewritten(env, keys[..n + 1], values) == Rewritten(env, keys[..n], values)
      + (if keys[n] in values && Expansion(env, values[keys[n]]) != values[keys[n]] then [keys[n]] else [])
  {
    assert keys[..n + 1][..n] == keys[..n];
  }

  /** Exactly the listed keys whose expansion changes their value are rewritten. */
  lemma {:induction false} RewrittenExactly(env: Env, keys: seq<string>, values: map<string, string>, k: string)
    ensures k in Rewritten(env, keys, values)
        <==> k in keys && k in values && Expansion(env, values[k]) != values[k]
  {
    if keys != [] {
      var init := keys[..|keys| - 1];
      RewrittenExactly(env, init, values, k);
      assert keys == init + [keys[|keys| - 1]];
    }
  }

  /** The table `values` with the values of the keys listed in `ks` replaced by their expansion. */
  ghost function ExpandedOn(env: Env, values: map<string, string>, ks: seq<string>): (r: map<string, string>)
    ensures r.Keys == values.Keys
  {
    map k | k in values :: if k in ks then Expansion(env, values[k]) else values[k]
  }

  /** Expanding one more key of a duplicate-free key list updates just that key. */
  lemma ExpandedOnStep(env: Env, values: map<string, string>, ks: seq<string>, n: nat)
    requires n < |ks| && ks[n] in values
    requires forall i, j :: 0 <= i < j < |ks| ==> ks[i] != ks[j]
    ensures ExpandedOn(env, values, ks[..n])[ks[n]] == values[ks[n]]
    ensures ExpandedOn(env, values, ks[..n + 1])
         == ExpandedOn(env, values, ks[..n])[ks[n] := Expansion(env, ExpandedOn(env, values, ks[..n])[ks[n]])]
  {
    assert ks[n] !in ks[..n];
  }

  /**
   * One pass of initConfig's loop, on values: writing the expansion of key
   * ks[n] back exactly when it differs moves the table and the write log
   * from the first n keys to the first n + 1.
   */
  lemma LoopStep(env: Env, orig: map<string, string>, logged: seq<string>, ks: seq<string>, n: nat,
                 values: map<string, string>, written: seq<string>, values': map<string, string>, written': seq<string>)
    requires n < |ks| && ks[n] in values
    requires forall i, j :: 0 <= i < j < |ks| ==> ks[i] != ks[j]
    requires values == ExpandedOn(env, orig, ks[..n])
    requires written == logged + Rewritten(env, ks[..n], orig)
    requires Expansion(env, values[ks[n]]) != values[ks[n]] ==>
      values' == values[ks[n] := Expansion(env, values[ks[n]])] && written' == written + [ks[n]]
    requires Expansion(env, values[ks[n]]) == values[ks[n]] ==> values' == values && written' == written
    ensures values' == ExpandedOn(env, orig, ks[..n + 1])
    ensures written' == logged + Rewritten(env, ks[..n + 1], orig)
  {
    var k := ks[n];
    var e := Expansion(env, values[k]);
    ExpandedOnStep(env, orig, ks, n);
    RewrittenStep(env, ks, orig, n);
    assert values[k] == orig[k];
    if e == values[k] {
      assert values[k := e] == values;
      assert Rewritten(env, ks[..n + 1], orig) == Rewritten(env, ks[..n], orig) + [];
    } else {
      assert Rewritten(env, ks[..n + 1], orig) == Rewritten(env, ks[..n], orig) + [k];
      assert written' == logged + (Rewritten(env, ks[..n], orig) + [k]);
    }
  }

  /** The unnamed section of config.conf: its key list and its key/value table. */
  class Section {
    var keys: seq<string>
    var values: map<string, string>
    /** The keys passed to SetValue, in order. */
    ghost var Written: seq<string>

    ghost predicate Valid()
      reads this
    {
      (forall i, j :: 0 <= i < j < |keys| ==> keys[i] != keys[j])
      && (forall k :: k in values <==> k in keys)
    }

    constructor (keys: seq<string>, values: map<string, string>)
      requires forall i, j :: 0 <= i < j < |keys| ==> keys[i] != keys[j]
      requires forall k :: k in values <==> k in keys
      ensures Valid()
      ensures this.keys == keys && this.values == values && Written == []
    {
      this.keys := keys;
      this.values := values;
      Written := [];
    }

    /** String: the value under `key`; a key the section lacks reads as "". */
    function String(key: string): (r: string)
      reads this
      ensures key in values ==> r == values[key]
      ensures key !in values ==> r == ""
    {
      if key in values then values[key] else ""
    }

    /** Key(key).SetValue: replaces the value of an existing key. */
    method SetValue(key: string, value: string)
      requires Valid()
      requires key in values
      modifies this
      ensures Valid() && keys == old(keys)
      ensures values == old(values)[key := value]
      ensures Written == old(Written) + [key]
    {
      values := values[key := value];
      Written := Written + [key];
    }

    /**
     * One pass of initConfig's loop: key ks[n] is read, expanded, and written
     * back only when its expansion differs from it.
     */
    method RewriteKey(env: Env, ghost orig: map<string, string>, ghost logged: seq<string>, ks: seq<string>, n: nat)
      requires Valid() && ks == keys && n < |ks|
      requires values == ExpandedOn(env, orig, ks[..n])
      requires Written == logged + Rewritten(env, ks[..n], orig)
      modifies this
      ensures Valid() && keys == old(keys)
      ensures values == ExpandedOn(env, orig, ks[..n + 1])
      ensures Written == logged + Rewritten(env, ks[..n + 1], orig)
    {
      var key := ks[n];
      assert key in values;
      var value := String(key);
      var envValue := ExpandValueEnv(env, value);
      if value != envValue {
        SetValue(key, envValue);
      }
      LoopStep(env, orig, logged, ks, n, old(values), old(Written), values, Written);
    }

    /**
     * initConfig: every key's value is replaced by its expansion; the key set
     * stays the same and only keys whose expansion differs are written.
     */
    method InitConfig(env: Env)
      requires Valid()
      modifies this
      ensures Valid() && keys == old(keys)
      ensures values == ExpandedOn(env, old(values), keys)
      ensures Written == old(Written) + Rewritten(env, keys, old(values))
    {
      var ks := keys;
      var n := 0;
      assert ks[..0] == [];
      while n < |ks|
        invariant 0 <= n <= |ks|
        invariant Valid() && ks == keys
        invariant values == ExpandedOn(env, old(values), ks[..n])
        invariant Written == old(Written) + Rewritten(env, ks[..n], old(values))
      {
        RewriteKey(env, old(values), old(Written), ks, n);
        n := n + 1;
      }
      assert ks[..n] == ks;
    }
  }
}
