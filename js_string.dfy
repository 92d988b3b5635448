/**
 * The two JavaScript string operations the argument resolver relies on,
 * written out exactly as the generator uses them:
 *  - `token.replace('--', '')`, which removes the FIRST occurrence of `--`
 *    wherever it is in the token (not only a leading one), and
 *  - `value.split(',')`, which keeps empty pieces (`"a,,b"` gives
 *    `["a", "", "b"]`),
 * together with `Array.prototype.join(',')`, which the generator does not
 * call, as the inverse of the split.
 */
module JsString {

  /** The two characters of `t` starting at index `k` are `--`. */
  predicate DashesAt(t: string, k: int) {
    0 <= k && k + 1 < |t| && t[k] == '-' && t[k + 1] == '-'
  }

  /** `t` contains no `--` before index `k`. */
  predicate NoDashesBefore(t: string, k: int) {
    forall j :: 0 <= j < k ==> !DashesAt(t, j)
  }

  /** `t.replace('--', '')`: the string pattern is replaced at its first match only. */
  function ReplaceFirstDashes(t: string): (r: string)
    decreases |t|
  {
    if |t| < 2 then t
    else if t[0] == '-' && t[1] == '-' then t[2..]
    else [t[0]] + ReplaceFirstDashes(t[1..])
  }

  /** When `--` first occurs at `k`, exactly those two characters are removed. */
  lemma {:induction false} ReplaceFirstDashesAt(t: string, k: nat)
    requires DashesAt(t, k) && NoDashesBefore(t, k)
    ensures ReplaceFirstDashes(t) == t[..k] + t[k + 2..]
    decreases k
  {
    if k == 0 {
      assert t[..0] + t[2..] == t[2..];
    } else {
      assert !DashesAt(t, 0);
      var u := t[1..];
      assert DashesAt(u, k - 1);
      forall j | 0 <= j < k - 1 ensures !DashesAt(u, j) {
        assert !DashesAt(t, j + 1);
      }
      ReplaceFirstDashesAt(u, k - 1);
      assert ReplaceFirstDashes(t) == [t[0]] + ReplaceFirstDashes(u);
      assert [t[0]] + (u[..k - 1] + u[k + 1..]) == t[..k] + t[k + 2..];
    }
  }

  /** The index of the first `--` at or after `k`, or `|t|` when there is none. */
  function FirstDashesFrom(t: string, k: nat): (m: nat)
    requires k <= |t|
    ensures k <= m <= |t|
    ensures m == |t| || DashesAt(t, m)
    ensures forall j :: k <= j < m ==> !DashesAt(t, j)
    decreases |t| - k
  {
    if k == |t| || DashesAt(t, k) then k else FirstDashesFrom(t, k + 1)
  }

  /**
   * Every token either has no `--` and is kept unchanged, or loses exactly
   * the two characters of its first `--`, wherever that is.
   */
  lemma {:induction false} ReplaceFirstDashesCases(t: string)
    ensures var k := FirstDashesFrom(t, 0);
      ReplaceFirstDashes(t) == if k == |t| then t else t[..k] + t[k + 2..]
  {
    var k := FirstDashesFrom(t, 0);
    if k == |t| {
      ReplaceFirstDashesNone(t);
    } else {
      ReplaceFirstDashesAt(t, k);
    }
  }

  /** A leading `--` is removed. */
  lemma LeadingDashesRemoved(name: string)
    ensures ReplaceFirstDashes("--" + name) == name
  {
    ReplaceFirstDashesAt("--" + name, 0);
  }

  /** A token without `--` is left unchanged. */
  lemma {:induction false} ReplaceFirstDashesNone(t: string)
    requires NoDashesBefore(t, |t|)
    ensures ReplaceFirstDashes(t) == t
    decreases |t|
  {
    if |t| >= 2 {
      assert !DashesAt(t, 0);
      forall j | 0 <= j < |t| - 1 ensures !DashesAt(t[1..], j) {
        assert !DashesAt(t, j + 1);
      }
      ReplaceFirstDashesNone(t[1..]);
      assert [t[0]] + t[1..] == t;
    }
  }

  /** `value.split(',')`: the pieces between commas, empty ones included. */
  function Split(s: string): (r: seq<string>)
    ensures |r| >= 1
    ensures forall i :: 0 <= i < |r| ==> ',' !in r[i]
    decreases |s|
  {
    if s == [] then [""]
    else
      var rest := Split(s[1..]);
      if s[0] == ',' then [""] + rest
      else [[s[0]] + rest[0]] + rest[1..]
  }

  /** `pieces.join(',')`. */
  function Join(pieces: seq<string>): string
    decreases |pieces|
  {
    if pieces == [] then ""
    else if |pieces| == 1 then pieces[0]
    else pieces[0] + "," + Join(pieces[1..])
  }

  /** Joining the pieces of a split gives the original value back. */
  lemma {:induction false} JoinSplit(s: string)
    ensures Join(Split(s)) == s
    decreases |s|
  {
    if s != [] {
      var rest := Split(s[1..]);
      JoinSplit(s[1..]);
      if s[0] == ',' {
        assert Split(s) == [""] + rest;
        assert ([""] + rest)[1..] == rest;
        assert Join(Split(s)) == "" + "," + Join(rest);
        assert s == [','] + s[1..];
      } else {
        var first := [s[0]] + rest[0];
        assert Split(s) == [first] + rest[1..];
        if |rest| == 1 {
          assert Join(rest) == rest[0];
          assert Join(Split(s)) == first;
        } else {
          assert ([first] + rest[1..])[1..] == rest[1..];
          assert Join(Split(s)) == first + "," + Join(rest[1..]);
          assert Join(rest) == rest[0] + "," + Join(rest[1..]);
        }
        assert s == [s[0]] + s[1..];
      }
    }
  }

  /** A piece with no comma, followed by a comma, splits off as the first piece. */
  lemma {:induction false} SplitAfterPiece(a: string, t: string)
    requires ',' !in a
    ensures Split(a + "," + t) == [a] + Split(t)
    decreases |a|
  {
    if a == [] {
      assert a + "," + t == [','] + t;
    } else {
      SplitAfterPiece(a[1..], t);
      var s := a + "," + t;
      assert s[0] == a[0];
      assert s[1..] == a[1..] + "," + t;
      var rest := Split(s[1..]);
      assert rest == [a[1..]] + Split(t);
      assert [a[0]] + a[1..] == a;
    }
  }

  /** A value with no comma splits into itself alone. */
  lemma {:induction false} SplitNoComma(a: string)
    requires ',' !in a
    ensures Split(a) == [a]
    decreases |a|
  {
    if a != [] {
      SplitNoComma(a[1..]);
      assert [a[0]] + a[1..] == a;
    }
  }

  /** Splitting the join of comma-free pieces gives the pieces back. */
  lemma {:induction false} SplitJoin(pieces: seq<string>)
    requires |pieces| >= 1
    requires forall i :: 0 <= i < |pieces| ==> ',' !in pieces[i]
    ensures Split(Join(pieces)) == pieces
    decreases |pieces|
  {
    if |pieces| == 1 {
      SplitNoComma(pieces[0]);
    } else {
      SplitJoin(pieces[1..]);
      SplitAfterPiece(pieces[0], Join(pieces[1..]));
      assert [pieces[0]] + pieces[1..] == pieces;
    }
  }
}
