/** Names made of labels: the topology's path string, the trace file's name, and the two ways in which
    the tools take them apart again. */
module Paths {
  import opened Fields

  const SEP := '_'

  // ---- Path strings ----

  function Total(labels: seq<string>): nat {
    if labels == [] then 0 else Total(labels[..|labels| - 1]) + |labels[|labels| - 1]|
  }

  lemma {:induction false} EndedLength(labels: seq<string>)
    ensures |Ended(labels, SEP)| == Total(labels) + |labels|
  {
    if labels != [] { EndedLength(labels[..|labels| - 1]); }
  }

  lemma {:induction false} EndedGrows(labels: seq<string>, n: nat)
    requires n < |labels|
    ensures Ended(labels[..n + 1], SEP) == Ended(labels[..n], SEP) + labels[n] + [SEP]
    ensures |Ended(labels[..n + 1], SEP)| <= |Ended(labels, SEP)|
    decreases |labels| - n
  {
    assert labels[..n + 1][..n] == labels[..n];
    if n + 1 < |labels| {
      EndedGrows(labels, n + 1);
    } else {
      assert labels[..n + 1] == labels;
    }
  }

  /** Copies the labels one behind the other, each with a separator; the last separator is cut off. */
  method PathString(labels: seq<string>) returns (text: array<char>)
    requires labels != []
    ensures text.Length > 0 && text[..text.Length - 1] == Join(labels, SEP) && text[text.Length - 1] == '\0'
  {
    hide Join, Ended;
    EndedIsJoined(labels, SEP);
    EndedLength(labels);
    var sum := 0;
    for i := 0 to |labels|
      invariant sum == Total(labels[..i])
    {
      assert labels[..i + 1][..i] == labels[..i];
      sum := sum + |labels[i]|;
    }
    assert labels[..|labels|] == labels;
    text := new char[sum + |labels|];
    var offset: nat := 0;
    NothingEnded(labels);
    for i := 0 to |labels|
      invariant offset <= text.Length && text[..offset] == Ended(labels[..i], SEP)
    {
      EndedGrows(labels, i);
      var n := |labels[i]|;
      ghost var before := text[..offset];
      forall k | 0 <= k < n {
        text[offset + k] := labels[i][k];
      }
      offset := offset + n;
      assert text[..offset] == before + labels[i];
      text[offset] := SEP;
      offset := offset + 1;
      assert text[..offset] == before + labels[i] + [SEP];
    }
    assert text[..] == text[..offset] == Join(labels, SEP) + [SEP];
    text[text.Length - 1] := '\0';
    assert text[..text.Length - 1] == Join(labels, SEP);
  }

  lemma {:induction false} NothingEnded(labels: seq<string>)
    ensures Ended(labels[..0], SEP) == ""
  {
  }

  /** Cuts a path string at its separators. */
  method ParsePath(text: string) returns (path: seq<string>)
    ensures path == Split(text, SEP)
  {
    path := [""];
    assert text[..0] == "";
    for i := 0 to |text|
      invariant path == Split(text[..i], SEP)
    {
      assert text[..i + 1][..i] == text[..i];
      if text[i] == SEP {
        path := path + [""];
      } else {
        path := path[|path| - 1 := path[|path| - 1] + [text[i]]];
      }
    }
    assert text[..|text|] == text;
  }

  /** The labels come back exactly when none of them holds an underscore. */
  lemma {:induction false} PathRoundTrip(labels: seq<string>)
    requires labels != []
    ensures Split(Join(labels, SEP), SEP) == labels <==> AllWithout(labels, SEP)
  {
    if AllWithout(labels, SEP) {
      SplitJoin(labels, SEP);
    }
    SplitWithout(Join(labels, SEP), SEP);
  }

  // ---- File names ----

  /** The name of the file for a node of the topology: prefix and project, a label for each level, the
      statistics group if there is one, the suffix. It has to fit the name buffer. */
  method GenerateFilename(prefix: string, project: string, labels: seq<string>, group: seq<string>, affix: string)
      returns (filename: string)
    requires |group| <= 1
    ensures filename == Join([prefix + project] + labels + group, SEP) + affix
  {
    hide Join;
    filename := prefix + project;
    OneField(filename);
    assert [filename] + labels[..0] == [filename];
    for i := 0 to |labels|
      invariant filename == Join([prefix + project] + labels[..i], SEP)
    {
      OneMore([prefix + project] + labels[..i], labels[i]);
      assert [prefix + project] + labels[..i] + [labels[i]] == [prefix + project] + labels[..i + 1];
      filename := filename + "_" + labels[i];
    }
    assert labels[..|labels|] == labels;
    if group == [] {
      assert [prefix + project] + labels + group == [prefix + project] + labels;
    } else {
      OneMore([prefix + project] + labels, group[0]);
      assert [prefix + project] + labels + [group[0]] == [prefix + project] + labels + group;
      filename := filename + "_" + group[0];
    }
    filename := filename + affix;
  }

  lemma {:induction false} OneField(f: string)
    ensures Join([f], SEP) == f
  {
  }

  lemma {:induction false} OneMore(fs: seq<string>, f: string)
    requires fs != []
    ensures Join(fs + [f], SEP) == Join(fs, SEP) + "_" + f
  {
    assert (fs + [f])[..|fs|] == fs;
  }

  /** The last fields stand for themselves, everything in front of them is the project. */
  function Parts(fs: seq<string>): seq<string>
    requires |fs| >= 4
  {
    [Join(fs[..|fs| - 3], SEP)] + fs[|fs| - 3..]
  }

  /** Takes a trace file's name apart; fewer than four fields are an error. */
  method SplitFilename(name: string) returns (ok: bool, parts: seq<string>)
    ensures ok == (|Split(name, SEP)| >= 4)
    ensures ok ==> parts == Parts(Split(name, SEP))
  {
    hide Split;
    parts := Split(name, SEP);
    if |parts| < 4 {
      return false, parts;
    }
    while |parts| > 4
      invariant |parts| >= 4 && Parts(parts) == Parts(Split(name, SEP))
      decreases |parts|
    {
      MergeTwo(parts);
      parts := [parts[0] + "_" + parts[1]] + parts[2..];
    }
    assert parts[..1] == [parts[0]] && parts == [parts[0]] + parts[1..];
    return true, parts;
  }

  lemma {:induction false} MergeTwo(fs: seq<string>)
    requires |fs| > 4
    ensures var gs := [fs[0] + "_" + fs[1]] + fs[2..]; |gs| == |fs| - 1 && Parts(gs) == Parts(fs)
  {
    hide Join;
    var gs := [fs[0] + "_" + fs[1]] + fs[2..];
    var n := |fs|;
    JoinFirst(fs[..n - 3]);
    assert gs[..n - 4] == [fs[0] + "_" + fs[1]] + fs[2..n - 3] == [fs[..n - 3][0] + "_" + fs[..n - 3][1]] + fs[..n - 3][2..];
    assert gs[n - 4..] == fs[n - 3..];
  }

  lemma {:induction false} JoinFirst(fs: seq<string>)
    requires |fs| >= 2
    ensures Join([fs[0] + "_" + fs[1]] + fs[2..], SEP) == Join(fs, SEP)
  {
    var n := |fs| - 1;
    var gs := [fs[0] + "_" + fs[1]] + fs[2..];
    if n == 1 {
      assert gs == [fs[0] + "_" + fs[1]] && fs[..1] == [fs[0]];
    } else {
      JoinFirst(fs[..n]);
      assert gs[..|gs| - 1] == [fs[..n][0] + "_" + fs[..n][1]] + fs[..n][2..];
    }
  }

  /** From the name of a trace file without its suffix the tools recover project, host, rank and thread,
      whatever underscores the project has, exactly when the three labels have none. */
  lemma {:induction false} FilenameRoundTrip(project: string, host: string, rank: string, thread: string)
    ensures var fs := Split(Join([project, host, rank, thread], SEP), SEP);
      && |fs| >= 4
      && (Parts(fs) == [project, host, rank, thread] <==> Without(host, SEP) && Without(rank, SEP) && Without(thread, SEP))
  {
    hide Split, Join;
    var labels := [host, rank, thread];
    var name := Join([project, host, rank, thread], SEP);
    assert [project] + labels == [project, host, rank, thread];
    var ps := Split(project, SEP);
    JoinSplit(project, SEP);
    JoinAppend([project], labels, SEP);
    JoinAppend(ps, labels, SEP);
    OneField(project);
    assert name == Join(ps + labels, SEP);
    var fs := Split(name, SEP);
    SplitWithout(name, SEP);
    FieldsOf(ps, labels);
    if AllWithout(labels, SEP) {
      SplitWithout(project, SEP);
      SplitJoin(ps + labels, SEP);
      assert (ps + labels)[..|ps + labels| - 3] == ps && (ps + labels)[|ps + labels| - 3..] == labels;
    } else {
      assert fs[|fs| - 3..] == labels ==> AllWithout(labels, SEP);
      assert Parts(fs)[1..] == fs[|fs| - 3..] && [project, host, rank, thread][1..] == labels;
    }
    assert AllWithout(labels, SEP) <==> Without(host, SEP) && Without(rank, SEP) && Without(thread, SEP) by {
      assert labels[0] == host && labels[1] == rank && labels[2] == thread;
    }
  }

  /** Joined fields have at least as many separators between them as there are joints. */
  lemma {:induction false} FieldsOf(ps: seq<string>, labels: seq<string>)
    requires ps != []
    ensures |Split(Join(ps + labels, SEP), SEP)| >= |ps| + |labels|
    decreases |labels|
  {
    ManyFields(ps + labels);
  }

  lemma {:induction false} ManyFields(fs: seq<string>)
    requires fs != []
    ensures |Split(Join(fs, SEP), SEP)| >= |fs|
  {
    var n := |fs| - 1;
    if n > 0 {
      ManyFields(fs[..n]);
      SplitEnded(Join(fs[..n], SEP), SEP);
      SplitGrows(Join(fs[..n], SEP) + [SEP], fs[n]);
    }
  }

  lemma {:induction false} SplitGrows(s: string, t: string)
    ensures |Split(s + t, SEP)| >= |Split(s, SEP)|
  {
    if t == "" {
      assert s + t == s;
    } else {
      SplitGrows(s, t[..|t| - 1]);
      assert (s + t)[..|s + t| - 1] == s + t[..|t| - 1];
    }
  }
}
