/**
 * The first half of the generator's argument resolver: the loop that walks
 * the command-line tokens two at a time and fills the `params` dictionary
 * (tools/shinobi-generate.mjs, lines 16-25).
 *
 * The token at an even index is a key, with its first `--` removed; the
 * next token is its value, `undefined` past the end of the list. The keys
 * `packsToInclude` and `extraControlTags` store their value split on commas
 * (an undefined or empty value stores the empty list); every other key
 * stores the value as it is, `undefined` included. A later occurrence of a
 * key overwrites the earlier entry.
 */
module ArgParser {
  import opened Wrappers
  import opened JsString

  /** A value held in `params`: a string, `undefined`, or a list of strings. */
  datatype Val = Text(s: string) | Undefined | List(items: seq<string>)

  /** One key token with the value token that follows it, if any. */
  type Pair = (string, Option<string>)

  /** The two keys whose values are comma-separated lists. */
  predicate IsListKey(key: string) {
    key == "packsToInclude" || key == "extraControlTags"
  }

  /** `args[j]`, which is `undefined` when `j` is past the end. */
  function ValueAt(args: seq<string>, j: nat): Option<string> {
    if j < |args| then Some(args[j]) else None
  }

  /** `value ? value.split(',') : []`: only a present, non-empty value is split. */
  function SplitOrEmpty(value: Option<string>): (r: seq<string>)
    ensures r == [] <==> value.None? || value.value == ""
    ensures r != [] ==> Join(r) == value.value
    ensures forall p :: p in r ==> ',' !in p
  {
    if value.Some? && value.value != "" then
      JoinSplit(value.value);
      Split(value.value)
    else []
  }

  /** What the loop body stores under `key` for the value token `value`. */
  function Stored(key: string, value: Option<string>): (r: Val)
    ensures r.List? <==> IsListKey(key)
  {
    if IsListKey(key) then List(SplitOrEmpty(value))
    else match value
      case Some(s) => Text(s)
      case None => Undefined
  }

  /** The tokens grouped into (key, value) pairs; an odd last key has no value. */
  function Pairs(args: seq<string>): (ps: seq<Pair>)
    ensures |ps| == (|args| + 1) / 2
    decreases |args|
  {
    if args == [] then []
    else if |args| == 1 then [(args[0], None)]
    else [(args[0], Some(args[1]))] + Pairs(args[2..])
  }

  /** Every list held in the dictionary consists of comma-free pieces. */
  predicate ListsCommaFree(m: map<string, Val>) {
    forall key :: key in m && m[key].List? ==> forall p :: p in m[key].items ==> ',' !in p
  }

  /** The dictionary after storing the pairs from first to last. */
  function Store(ps: seq<Pair>): map<string, Val>
    decreases |ps|
  {
    if ps == [] then map[]
    else
      var key := ReplaceFirstDashes(ps[|ps| - 1].0);
      Store(ps[..|ps| - 1])[key := Stored(key, ps[|ps| - 1].1)]
  }

  /** Each pair adds at most one entry, and every stored list is split pieces. */
  lemma {:induction false} StoreShape(ps: seq<Pair>)
    ensures |Store(ps)| <= |ps|
    ensures ListsCommaFree(Store(ps))
    decreases |ps|
  {
    if ps != [] {
      StoreShape(ps[..|ps| - 1]);
    }
  }

  /**
   * The `params` dictionary the loop builds from the tokens: at most one
   * entry per key token, and lists made of comma-free pieces.
   */
  function Parsed(args: seq<string>): (params: map<string, Val>)
    ensures |params| <= (|args| + 1) / 2
    ensures ListsCommaFree(params)
  {
    StoreShape(Pairs(args));
    Store(Pairs(args))
  }

  /** The pair at position `i / 2` is the key at `i` with the token after it. */
  lemma {:induction false} PairsAt(args: seq<string>, i: nat)
    requires i % 2 == 0 && i < |args|
    ensures Pairs(args)[i / 2] == (args[i], ValueAt(args, i + 1))
    decreases i
  {
    if i >= 2 {
      PairsAt(args[2..], i - 2);
      assert ValueAt(args[2..], i - 1) == ValueAt(args, i + 1);
    }
  }

  /** Storing one more pair updates the entry of its key and nothing else. */
  lemma StoreStep(ps: seq<Pair>, k: nat)
    requires k < |ps|
    ensures Store(ps[..k + 1]) ==
      Store(ps[..k])[ReplaceFirstDashes(ps[k].0) := Stored(ReplaceFirstDashes(ps[k].0), ps[k].1)]
  {
    assert ps[..k + 1][..k] == ps[..k];
  }

  /** The parse loop, as written: `i` steps by two and `params` is updated in place. */
  method ParseArgs(args: seq<string>) returns (params: map<string, Val>)
    ensures params == Parsed(args)
  {
    ghost var ps := Pairs(args);
    params := map[];
    var i := 0;
    while i < |args|
      invariant i % 2 == 0 && i <= |args| + 1
      invariant params == Store(ps[..i / 2])
    {
      var key := ReplaceFirstDashes(args[i]);
      var value := if i + 1 < |args| then Some(args[i + 1]) else None;
      ghost var before := params;
      if key == "packsToInclude" || key == "extraControlTags" {
        params := params[key := List(if value.Some? && value.value != "" then Split(value.value) else [])];
      } else {
        params := params[key := if value.Some? then Text(value.value) else Undefined];
      }
      assert params == before[key := Stored(key, value)];
      PairsAt(args, i);
      StoreStep(ps, i / 2);
      i := i + 2;
    }
    assert ps[..i / 2] == ps;
  }

  /** The keys of the dictionary are exactly the normalised key tokens. */
  lemma {:induction false} StoreKeys(ps: seq<Pair>)
    ensures Store(ps).Keys == set j | 0 <= j < |ps| :: ReplaceFirstDashes(ps[j].0)
    decreases |ps|
  {
    if ps != [] {
      var init := ps[..|ps| - 1];
      StoreKeys(init);
      assert forall j :: 0 <= j < |init| ==> init[j] == ps[j];
    }
  }

  /** Each key holds the value stored for its last occurrence. */
  lemma {:induction false} StoreLastWins(ps: seq<Pair>, j: nat)
    requires j < |ps|
    requires forall j' :: j < j' < |ps| ==> ReplaceFirstDashes(ps[j'].0) != ReplaceFirstDashes(ps[j].0)
    ensures ReplaceFirstDashes(ps[j].0) in Store(ps)
    ensures Store(ps)[ReplaceFirstDashes(ps[j].0)] == Stored(ReplaceFirstDashes(ps[j].0), ps[j].1)
    decreases |ps|
  {
    if j < |ps| - 1 {
      var init := ps[..|ps| - 1];
      assert init[j] == ps[j];
      forall j' | j < j' < |init| ensures ReplaceFirstDashes(init[j'].0) != ReplaceFirstDashes(init[j].0) {
        assert init[j'] == ps[j'];
      }
      StoreLastWins(init, j);
    }
  }

  /** Every list key holds a list and every other key a string or `undefined`. */
  lemma {:induction false} StoreWellKinded(ps: seq<Pair>)
    ensures forall key :: key in Store(ps) ==> (Store(ps)[key].List? <==> IsListKey(key))
    decreases |ps|
  {
    if ps != [] {
      StoreWellKinded(ps[..|ps| - 1]);
    }
  }

  /** The key at even index `i` does not occur again at a later even index. */
  predicate LastKeyAt(args: seq<string>, key: string, i: nat) {
    i % 2 == 0 && i < |args| && ReplaceFirstDashes(args[i]) == key &&
    forall i' :: i < i' < |args| && i' % 2 == 0 ==> ReplaceFirstDashes(args[i']) != key
  }

  /** No even index holds a token that normalises to `key`. */
  predicate KeyAbsent(args: seq<string>, key: string) {
    forall i :: 0 <= i < |args| && i % 2 == 0 ==> ReplaceFirstDashes(args[i]) != key
  }

  /** A key is in `params` exactly when some key token normalises to it. */
  lemma ParsedKeys(args: seq<string>, key: string)
    ensures key !in Parsed(args) <==> KeyAbsent(args, key)
  {
    var ps := Pairs(args);
    StoreKeys(ps);
    if key in Parsed(args) {
      var j :| 0 <= j < |ps| && ReplaceFirstDashes(ps[j].0) == key;
      PairsAt(args, 2 * j);
    } else {
      forall i | 0 <= i < |args| && i % 2 == 0 ensures ReplaceFirstDashes(args[i]) != key {
        PairsAt(args, i);
        assert ps[i / 2].0 == args[i];
      }
    }
  }

  /** A later occurrence of a key overwrites every earlier one. */
  lemma ParsedLastWins(args: seq<string>, key: string, i: nat)
    requires LastKeyAt(args, key, i)
    ensures key in Parsed(args)
    ensures Parsed(args)[key] == Stored(key, ValueAt(args, i + 1))
  {
    var ps := Pairs(args);
    PairsAt(args, i);
    forall j' | i / 2 < j' < |ps| ensures ReplaceFirstDashes(ps[j'].0) != ReplaceFirstDashes(ps[i / 2].0) {
      PairsAt(args, 2 * j');
    }
    StoreLastWins(ps, i / 2);
  }

  /** If a key token normalises to `key`, there is a last such token. */
  lemma {:induction false} LastKeyExists(args: seq<string>, key: string, i: nat) returns (last: nat)
    requires i % 2 == 0 && i < |args| && ReplaceFirstDashes(args[i]) == key
    ensures LastKeyAt(args, key, last) && i <= last
    decreases |args| - i
  {
    if LastKeyAt(args, key, i) {
      last := i;
    } else {
      var i' :| i < i' < |args| && i' % 2 == 0 && ReplaceFirstDashes(args[i']) == key;
      last := LastKeyExists(args, key, i');
    }
  }

  /** `params` never holds a list under a scalar key nor a string under a list key. */
  lemma ParsedWellKinded(args: seq<string>)
    ensures forall key :: key in Parsed(args) ==> (Parsed(args)[key].List? <==> IsListKey(key))
  {
    StoreWellKinded(Pairs(args));
  }
}
