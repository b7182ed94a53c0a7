/** The string tests the plugin performs with literal regular expressions,
    its backslash normalisation, and the order in which JavaScript's default
    `Array.prototype.sort` puts strings. */
module Strings {

  /** `/^prefix/.test(s)` for a literal prefix. */
  predicate StartsWith(s: string, prefix: string) {
    |prefix| <= |s| && s[..|prefix|] == prefix
  }

  /** `/suffix$/.test(s)` for a literal suffix (no multiline flag, so `$` is
      the end of the string). */
  predicate EndsWith(s: string, suffix: string) {
    |suffix| <= |s| && s[|s| - |suffix|..] == suffix
  }

  /** `s.replace(/\\/g, "/")`: every backslash becomes a forward slash. */
  function Normalize(s: string): (r: string)
    ensures |r| == |s|
    ensures '\\' !in r
  {
    if s == [] then [] else [if s[0] == '\\' then '/' else s[0]] + Normalize(s[1..])
  }

  /** Every character other than a backslash is kept in place. */
  lemma {:induction false} NormalizeAt(s: string, i: nat)
    requires i < |s|
    ensures Normalize(s)[i] == if s[i] == '\\' then '/' else s[i]
  {
    if i > 0 {
      NormalizeAt(s[1..], i - 1);
    }
  }

  /** A string without backslashes is already normalised. */
  lemma {:induction false} NormalizeFixes(s: string)
    requires '\\' !in s
    ensures Normalize(s) == s
  {
    if s != [] {
      NormalizeFixes(s[1..]);
    }
  }

  /** A suffix without slashes of either kind is seen the same before and
      after normalisation: this is why the suffix tests on raw chunk files also
      hold of the normalised paths stored in the manifest. */
  lemma NormalizeEndsWith(s: string, suffix: string)
    requires '\\' !in suffix && '/' !in suffix
    ensures EndsWith(Normalize(s), suffix) <==> EndsWith(s, suffix)
  {
    var n := Normalize(s);
    if |suffix| <= |s| {
      var d := |s| - |suffix|;
      if EndsWith(s, suffix) {
        forall i | 0 <= i < |suffix| ensures n[d..][i] == suffix[i] {
          assert s[d + i] == suffix[i];
          NormalizeAt(s, d + i);
        }
      }
      if EndsWith(n, suffix) {
        forall i | 0 <= i < |suffix| ensures s[d..][i] == suffix[i] {
          assert n[d + i] == suffix[i];
          NormalizeAt(s, d + i);
          assert suffix[i] != '\\' && suffix[i] != '/';
        }
      }
    }
  }

  /** JavaScript's `a < b` on strings: the first differing character
      decides, and a proper prefix comes first. */
  predicate Less(a: string, b: string) {
    |b| > 0 && (|a| == 0 || a[0] < b[0] || (a[0] == b[0] && Less(a[1..], b[1..])))
  }

  lemma {:induction false} LessIrreflexive(a: string)
    ensures !Less(a, a)
  {
    if |a| > 0 {
      LessIrreflexive(a[1..]);
    }
  }

  lemma {:induction false} LessTransitive(a: string, b: string, c: string)
    requires Less(a, b) && Less(b, c)
    ensures Less(a, c)
  {
    if |a| > 0 && a[0] == b[0] && b[0] == c[0] {
      LessTransitive(a[1..], b[1..], c[1..]);
    }
  }

  lemma {:induction false} LessTotal(a: string, b: string)
    ensures a == b || Less(a, b) || Less(b, a)
  {
    if |a| > 0 && |b| > 0 && a[0] == b[0] {
      LessTotal(a[1..], b[1..]);
      if a[1..] == b[1..] {
        assert a == [a[0]] + a[1..] && b == [b[0]] + b[1..];
      }
    }
  }

  /** Keys in strictly ascending order: what `Object.keys(o).sort()` yields
      for the distinct keys of an object. */
  ghost predicate StrictlyAscending(s: seq<string>) {
    forall i, j :: 0 <= i < j < |s| ==> Less(s[i], s[j])
  }

  ghost predicate Distinct(s: seq<string>) {
    forall i, j :: 0 <= i < j < |s| ==> s[i] != s[j]
  }

  lemma AscendingIsDistinct(s: seq<string>)
    requires StrictlyAscending(s)
    ensures Distinct(s)
  {
    forall i, j | 0 <= i < j < |s| ensures s[i] != s[j] {
      LessIrreflexive(s[i]);
    }
  }

  /** One step of insertion sort. */
  function Insert(x: string, s: seq<string>): seq<string> {
    if s == [] then [x]
    else if Less(x, s[0]) then [x] + s
    else [s[0]] + Insert(x, s[1..])
  }

  /** `Array.prototype.sort()` with no comparator, on strings. JavaScript
      does not fix the algorithm, only the resulting order, and for distinct
      keys that order is unique; insertion sort is used here. */
  function Sort(s: seq<string>): seq<string> {
    if s == [] then [] else Insert(s[0], Sort(s[1..]))
  }

  /** Insertion adds exactly `x`. */
  lemma {:induction false} InsertMultiset(x: string, s: seq<string>)
    ensures multiset(Insert(x, s)) == multiset(s) + multiset{x}
  {
    if s != [] && !Less(x, s[0]) {
      InsertMultiset(x, s[1..]);
      assert s == [s[0]] + s[1..];
    }
  }

  lemma AscendingTail(s: seq<string>)
    requires StrictlyAscending(s) && s != []
    ensures StrictlyAscending(s[1..])
  {
    var rest := s[1..];
    forall i, j | 0 <= i < j < |rest| ensures Less(rest[i], rest[j]) {
      assert rest[i] == s[i + 1] && rest[j] == s[j + 1];
    }
  }

  lemma AscendingCons(h: string, t: seq<string>)
    requires StrictlyAscending(t)
    requires forall k :: 0 <= k < |t| ==> Less(h, t[k])
    ensures StrictlyAscending([h] + t)
  {
    var s := [h] + t;
    forall i, j | 0 <= i < j < |s| ensures Less(s[i], s[j]) {
      assert s[j] == t[j - 1];
      if i > 0 {
        assert s[i] == t[i - 1];
      }
    }
  }

  lemma {:induction false} InsertAscending(x: string, s: seq<string>)
    requires StrictlyAscending(s) && x !in s
    ensures StrictlyAscending(Insert(x, s))
  {
    if s == [] {
    } else if Less(x, s[0]) {
      forall k | 0 <= k < |s| ensures Less(x, s[k]) {
        if k > 0 {
          LessTransitive(x, s[0], s[k]);
        }
      }
      AscendingCons(x, s);
    } else {
      LessTotal(x, s[0]);
      var rest := s[1..];
      AscendingTail(s);
      InsertAscending(x, rest);
      var t := Insert(x, rest);
      InsertMultiset(x, rest);
      forall k | 0 <= k < |t| ensures Less(s[0], t[k]) {
        assert t[k] in multiset(t);
        if t[k] != x {
          assert t[k] in multiset(rest);
          var m :| 0 <= m < |rest| && rest[m] == t[k];
          assert s[m + 1] == t[k];
        }
      }
      AscendingCons(s[0], t);
    }
  }

  /** Sorting distinct keys yields them all, each once, strictly ascending. */
  lemma {:induction false} SortAscending(s: seq<string>)
    requires Distinct(s)
    ensures StrictlyAscending(Sort(s))
    ensures multiset(Sort(s)) == multiset(s)
  {
    if s != [] {
      var rest := s[1..];
      assert Distinct(rest) by {
        forall i, j | 0 <= i < j < |rest| ensures rest[i] != rest[j] {
          assert rest[i] == s[i + 1] && rest[j] == s[j + 1];
        }
      }
      SortAscending(rest);
      assert s[0] !in rest by {
        forall m | 0 <= m < |rest| ensures rest[m] != s[0] {
          assert rest[m] == s[m + 1];
        }
      }
      assert s[0] !in multiset(Sort(rest));
      InsertAscending(s[0], Sort(rest));
      InsertMultiset(s[0], Sort(rest));
      assert s == [s[0]] + rest;
    }
  }
}
