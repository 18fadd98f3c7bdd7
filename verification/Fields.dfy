/** Text made of fields with a separator between them. */
module Fields {

  function Split(s: string, sep: char): (fs: seq<string>)
    ensures fs != []
  {
    if s == "" then [""]
    else
      var fs := Split(s[..|s| - 1], sep);
      var c := s[|s| - 1];
      if c == sep then fs + [""] else fs[|fs| - 1 := fs[|fs| - 1] + [c]]
  }

  function Join(fs: seq<string>, sep: char): string
    requires fs != []
  {
    if |fs| == 1 then fs[0] else Join(fs[..|fs| - 1], sep) + [sep] + fs[|fs| - 1]
  }

  lemma {:induction false} JoinSplit(s: string, sep: char)
    ensures Join(Split(s, sep), sep) == s
  {
    if s != "" {
      var n, c := |s| - 1, s[|s| - 1];
      JoinSplit(s[..n], sep);
      var fs := Split(s[..n], sep);
      assert s == s[..n] + [c];
      if c == sep {
        assert (fs + [""])[..|fs|] == fs;
      } else {
        JoinLonger(fs, [c], sep);
      }
    }
  }

  /** A longer last field. */
  lemma {:induction false} JoinLonger(fs: seq<string>, more: string, sep: char)
    requires fs != []
    ensures var n := |fs| - 1; Join(fs[n := fs[n] + more], sep) == Join(fs, sep) + more
  {
    var n := |fs| - 1;
    var gs := fs[n := fs[n] + more];
    if n > 0 {
      assert gs[..n] == fs[..n];
    }
  }

  predicate Without(s: string, sep: char) { forall i | 0 <= i < |s| :: s[i] != sep }

  predicate AllWithout(fs: seq<string>, sep: char) { forall i | 0 <= i < |fs| :: Without(fs[i], sep) }

  /** Splitting a text at whose end a field without the separator stands. */
  lemma {:induction false} SplitLonger(s: string, f: string, sep: char)
    requires Without(f, sep)
    ensures var fs := Split(s, sep); Split(s + f, sep) == fs[|fs| - 1 := fs[|fs| - 1] + f]
  {
    var fs := Split(s, sep);
    var n := |fs| - 1;
    if f == "" {
      assert s + f == s && fs[n] + "" == fs[n];
    } else {
      var m := |f| - 1;
      SplitLonger(s, f[..m], sep);
      assert (s + f)[..|s + f| - 1] == s + f[..m];
      assert fs[n] + f[..m] + [f[m]] == fs[n] + f;
    }
  }

  /** Splitting undoes joining when no field holds the separator. */
  lemma {:induction false} SplitJoin(fs: seq<string>, sep: char)
    requires fs != [] && AllWithout(fs, sep)
    ensures Split(Join(fs, sep), sep) == fs
  {
    var n := |fs| - 1;
    if n == 0 {
      SplitLonger("", fs[0], sep);
      assert "" + fs[0] == fs[0];
    } else {
      hide Split;
      SplitJoin(fs[..n], sep);
      var s := Join(fs[..n], sep);
      SplitEnded(s, sep);
      SplitLonger(s + [sep], fs[n], sep);
      assert "" + fs[n] == fs[n];
      assert (fs[..n] + [""])[n := fs[n]] == fs;
    }
  }

  lemma {:induction false} SplitEnded(s: string, sep: char)
    ensures Split(s + [sep], sep) == Split(s, sep) + [""]
  {
    assert (s + [sep])[..|s|] == s;
  }

  /** No field that splitting yields holds the separator. */
  lemma {:induction false} SplitWithout(s: string, sep: char)
    ensures AllWithout(Split(s, sep), sep)
  {
    if s != "" {
      SplitWithout(s[..|s| - 1], sep);
    }
  }

  lemma {:induction false} JoinAppend(fs: seq<string>, gs: seq<string>, sep: char)
    requires fs != [] && gs != []
    ensures Join(fs + gs, sep) == Join(fs, sep) + [sep] + Join(gs, sep)
  {
    var n := |gs| - 1;
    assert (fs + gs)[..|fs + gs| - 1] == fs + gs[..n];
    if n == 0 {
      assert fs + gs[..n] == fs;
    } else {
      JoinAppend(fs, gs[..n], sep);
    }
  }

  /** Every field with a separator behind it. */
  function Ended(fs: seq<string>, sep: char): string {
    if fs == [] then "" else Ended(fs[..|fs| - 1], sep) + fs[|fs| - 1] + [sep]
  }

  lemma {:induction false} EndedMore(fs: seq<string>, f: string, sep: char)
    ensures Ended(fs + [f], sep) == Ended(fs, sep) + f + [sep] && Ended([], sep) == ""
  {
    assert (fs + [f])[..|fs|] == fs;
  }

  lemma {:induction false} EndedIsJoined(fs: seq<string>, sep: char)
    requires fs != []
    ensures Ended(fs, sep) == Join(fs, sep) + [sep]
  {
    if |fs| > 1 {
      EndedIsJoined(fs[..|fs| - 1], sep);
    } else {
      assert Ended(fs[..0], sep) == "";
      assert "" + fs[0] + [sep] == fs[0] + [sep];
    }
  }

  // ---- Up to a character ----

  /** The length of what stands in front of the first such character. */
  function Until(s: string, c: char): (n: nat)
    ensures n <= |s| && (n < |s| ==> s[n] == c)
  {
    if s == "" || s[0] == c then 0 else 1 + Until(s[1..], c)
  }

  lemma {:induction false} UntilStops(a: string, c: char, b: string)
    requires c !in a && b != "" && b[0] == c
    ensures Until(a + b, c) == |a|
  {
    if a == "" {
      assert a + b == b;
    } else {
      assert a[0] in a && (a + b)[1..] == a[1..] + b;
      UntilStops(a[1..], c, b);
    }
  }
}
