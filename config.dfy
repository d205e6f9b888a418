/**
 * `Config`: the loaded YAML document, the API keys read from the
 * environment, and the dotted-path lookup `get`.  Reading the file and
 * the environment are parameters of the constructor.
 */
module Configuration {
  import opened Wrappers
  import opened Text

  /** A YAML value as `yaml.safe_load` produces it. */
  datatype Value =
    | Null
    | Bool(b: bool)
    | Int(i: int)
    | Str(s: string)
    | List(items: seq<Value>)
    | Dict(entries: map<string, Value>)

  const MissingKeyError: string := "OPENAI_API_KEY not found in .env file"

  /** The value reached from `value` along `keys`; None as soon as a step
      meets something that is not a mapping.  A missing key reads as null
      (`dict.get`). */
  function Walk(value: Value, keys: seq<string>): Option<Value>
    decreases |keys|
  {
    if keys == [] then Some(value)
    else if !value.Dict? then None
    else Walk(if keys[0] in value.entries then value.entries[keys[0]] else Null, keys[1..])
  }

  /** What `get(path, default)` returns. */
  function Lookup(root: Value, path: string, default: Value): Value {
    match Walk(root, SplitOn(path, '.'))
    case None => default
    case Some(v) => if v.Null? then default else v
  }

  class Config {
    /** The parsed configuration file. */
    var data: Value
    var openaiApiKey: string
    var openrouterApiKey: Option<string>

    /** `Config.__init__` once the file is loaded and the key found present. */
    constructor (document: Value, openaiKey: string, openrouterKey: Option<string>)
      requires openaiKey != ""
      ensures data == document && openaiApiKey == openaiKey && openrouterApiKey == openrouterKey
    {
      data := document;
      openaiApiKey := openaiKey;
      openrouterApiKey := openrouterKey;
    }

    /** `get`: splits the path on every `.`, walks it from the root, and
        answers the default for a missing key, a non-mapping on the way or
        a stored null. */
    method Get(path: string, default: Value) returns (result: Value)
      ensures result == Lookup(data, path, default)
    {
      var keys := SplitOn(path, '.');
      var value := data;
      for i := 0 to |keys|
        invariant Walk(data, keys) == Walk(value, keys[i..])
      {
        if value.Dict? {
          value := if keys[i] in value.entries then value.entries[keys[i]] else Null;
        } else {
          assert keys[i..][0] == keys[i];
          return default;
        }
        assert keys[i..][1..] == keys[i + 1..];
      }
      assert keys[|keys|..] == [];
      result := if value != Null then value else default;
    }
  }

  /** `Config.__init__`: fails with the missing-key error when the OpenAI key
      is absent or empty. */
  method CreateConfig(document: Value, openaiKey: Option<string>, openrouterKey: Option<string>)
    returns (r: Result<Config, string>)
    ensures r.Failure? <==> openaiKey.None? || openaiKey.value == ""
    ensures r.Failure? ==> r.error == MissingKeyError
    ensures r.Success? ==>
      (fresh(r.value) && r.value.data == document
       && r.value.openaiApiKey == openaiKey.value && r.value.openrouterApiKey == openrouterKey)
  {
    if openaiKey.None? || openaiKey.value == "" {
      return Failure(MissingKeyError);
    }
    var c := new Config(document, openaiKey.value, openrouterKey);
    return Success(c);
  }

  // ---------------------------------------------------------------------
  // Properties of the lookup

  /** The path `k1.k2...kn` names the keys `k1`, ..., `kn`, in order. */
  lemma {:induction false} PathKeys(keys: seq<string>)
    requires keys != [] && forall k | k in keys :: '.' !in k
    ensures SplitOn(Join(keys, "."), '.') == keys
    decreases |keys|
  {
    if |keys| == 1 {
      SplitNoSep(keys[0]);
    } else {
      var rest := keys[1..];
      assert forall k | k in rest :: k in keys;
      assert keys[0] in keys;
      PathKeys(rest);
      JoinCons(keys[0], rest, ".");
      assert [keys[0]] + rest == keys;
      SplitPrefix(keys[0], Join(rest, "."));
    }
  }

  /** A text without `.` splits into itself. */
  lemma {:induction false} SplitNoSep(k: string)
    requires '.' !in k
    ensures SplitOn(k, '.') == [k]
    decreases |k|
  {
    if k != [] {
      assert k[0] in k;
      assert forall c | c in k[1..] :: c in k;
      SplitNoSep(k[1..]);
      assert [k[0]] + k[1..] == k;
    }
  }

  /** A key followed by `.` is the first part of the split. */
  lemma {:induction false} SplitPrefix(k: string, rest: string)
    requires '.' !in k
    ensures SplitOn(k + "." + rest, '.') == [k] + SplitOn(rest, '.')
    decreases |k|
  {
    var s := k + "." + rest;
    if k == [] {
      assert s[1..] == rest;
    } else {
      assert k[0] in k;
      assert forall c | c in k[1..] :: c in k;
      SplitPrefix(k[1..], rest);
      assert s[0] == k[0] && s[0] != '.';
      assert s[1..] == k[1..] + "." + rest;
      var tail := SplitOn(s[1..], '.');
      assert tail[0] == k[1..] && tail[1..] == SplitOn(rest, '.');
      assert [k[0]] + k[1..] == k;
    }
  }

  /** A key missing at some step of the path ends the walk at null (or at
      nothing, if the path goes on). */
  lemma {:induction false} MissingKeyWalk(value: Value, keys: seq<string>, i: nat)
    requires i < |keys|
    requires Walk(value, keys[..i]).Some? && Walk(value, keys[..i]).value.Dict?
    requires keys[i] !in Walk(value, keys[..i]).value.entries
    ensures Walk(value, keys) == None || Walk(value, keys) == Some(Null)
    decreases i
  {
    if i == 0 {
      assert keys[..0] == [];
      if |keys| > 1 {
        assert Walk(Null, keys[1..]) == None;
      }
    } else {
      assert value.Dict?;
      var next := if keys[0] in value.entries then value.entries[keys[0]] else Null;
      assert keys[..i][1..] == keys[1..][..i - 1];
      MissingKeyWalk(next, keys[1..], i - 1);
    }
  }

  /** Meeting something that is not a mapping before the path ends ends the
      walk with nothing. */
  lemma {:induction false} NonDictWalk(value: Value, keys: seq<string>, i: nat)
    requires i < |keys|
    requires Walk(value, keys[..i]).Some? && !Walk(value, keys[..i]).value.Dict?
    ensures Walk(value, keys).None?
    decreases i
  {
    if i == 0 {
      assert keys[..0] == [];
    } else {
      assert value.Dict?;
      var next := if keys[0] in value.entries then value.entries[keys[0]] else Null;
      assert keys[..i][1..] == keys[1..][..i - 1];
      NonDictWalk(next, keys[1..], i - 1);
    }
  }

  /** `get` on a dotted path whose key `i` is missing below the mapping the
      first `i` keys reach answers the default. */
  lemma MissingKeyLookup(root: Value, keys: seq<string>, i: nat, default: Value)
    requires (forall k | k in keys :: '.' !in k) && i < |keys|
    requires Walk(root, keys[..i]).Some? && Walk(root, keys[..i]).value.Dict?
    requires keys[i] !in Walk(root, keys[..i]).value.entries
    ensures Lookup(root, Join(keys, "."), default) == default
  {
    PathKeys(keys);
    MissingKeyWalk(root, keys, i);
  }

  /** `get` on a dotted path that meets a value that is not a mapping after
      `i` keys, with keys still to go, answers the default. */
  lemma NonDictLookup(root: Value, keys: seq<string>, i: nat, default: Value)
    requires (forall k | k in keys :: '.' !in k) && i < |keys|
    requires Walk(root, keys[..i]).Some? && !Walk(root, keys[..i]).value.Dict?
    ensures Lookup(root, Join(keys, "."), default) == default
  {
    PathKeys(keys);
    NonDictWalk(root, keys, i);
  }

  /** A value stored at the whole path comes back as it is, even when it is
      falsy (0, false, ""); a stored null gives the default. */
  lemma StoredValueLookup(root: Value, keys: seq<string>, default: Value)
    requires keys != [] && (forall k | k in keys :: '.' !in k)
    requires Walk(root, keys).Some?
    ensures Walk(root, keys).value != Null ==> Lookup(root, Join(keys, "."), default) == Walk(root, keys).value
    ensures Walk(root, keys).value == Null ==> Lookup(root, Join(keys, "."), default) == default
  {
    PathKeys(keys);
  }
}
