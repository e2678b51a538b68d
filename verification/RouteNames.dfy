/** Name routes compare texts, but what they decide is about whole labels (connector/route.go, domain matching). */
module RouteNames {
  import opened Text
  import opened Routes

  function Labels(name: string): seq<string> { Split(name, '.') }

  /** The last labels of `name` are those of `base`. */
  predicate LabelSuffix(name: seq<string>, base: seq<string>) {
    |base| <= |name| && name[|name| - |base|..] == base
  }

  lemma Regrouped(whole: string, a: string, first: string, rest: string, b: string)
    requires whole == a + "." + b && a == first + "." + rest
    ensures whole == first + "." + (rest + "." + b)
  {
  }

  lemma Prefixed(first: string, rest: seq<string>, all: seq<string>, a: seq<string>, b: seq<string>)
    requires a == [first] + rest && all == [first] + (rest + b)
    ensures all == a + b
  {
  }

  /** Splitting at a dot splits the labels. */
  lemma {:induction false} LabelsOfJoined(whole: string, a: string, b: string)
    requires whole == a + "." + b
    ensures Labels(whole) == Labels(a) + Labels(b)
    decreases |a|
  {
    var i := IndexOf(a, '.');
    if i < 0 {
      SplitFirst(whole, a, '.', b);
    } else {
      var first, rest := a[..i], a[i + 1..];
      CutAt(a, i);
      LabelsOfJoined(rest + "." + b, rest, b);
      Regrouped(whole, a, first, rest, b);
      SplitFirst(whole, first, '.', rest + "." + b);
      SplitFirst(a, first, '.', rest);
      Prefixed(first, Labels(rest), Labels(whole), Labels(a), Labels(b));
    }
  }

  lemma {:induction false} JoinedLabels(front: seq<string>, back: seq<string>)
    requires front != [] && back != []
    ensures Join(front + back, '.') == Join(front, '.') + "." + Join(back, '.')
    decreases |front|
  {
    if |front| == 1 {
      assert (front + back)[1..] == back;
    } else {
      assert (front + back)[1..] == front[1..] + back;
      JoinedLabels(front[1..], back);
    }
  }

  lemma TextSuffixGivesLabels(host: string, base: string)
    requires EndsWith(host, "." + base)
    ensures LabelSuffix(Labels(host), Labels(base)) && |Labels(host)| > |Labels(base)|
  {
    var front := host[..|host| - |base| - 1];
    assert host == front + "." + base;
    LabelsOfJoined(host, front, base);
  }

  lemma LabelsGiveTextSuffix(host: string, base: string)
    requires LabelSuffix(Labels(host), Labels(base)) && |Labels(host)| > |Labels(base)|
    ensures EndsWith(host, "." + base)
  {
    JoinSplit(host, '.');
    JoinSplit(base, '.');
    JoinedSuffix(Labels(host), Labels(base));
  }

  lemma JoinedSuffix(all: seq<string>, back: seq<string>)
    requires back != [] && LabelSuffix(all, back) && |all| > |back|
    ensures EndsWith(Join(all, '.'), "." + Join(back, '.'))
  {
    var front := all[..|all| - |back|];
    assert all == front + back;
    JoinedLabels(front, back);
    IsSuffix(Join(all, '.'), Join(front, '.'), ".", Join(back, '.'));
  }

  lemma IsSuffix(s: string, a: string, b: string, c: string)
    requires s == a + b + c
    ensures EndsWith(s, b + c)
  {
    assert s == a + (b + c);
  }

  /** A label suffix is what a text suffix behind a dot, or the whole text, amounts to. */
  lemma TextSuffixIsLabelSuffix(host: string, base: string)
    ensures EndsWith(host, "." + base) <==> LabelSuffix(Labels(host), Labels(base)) && |Labels(host)| > |Labels(base)|
    ensures host == base <==> LabelSuffix(Labels(host), Labels(base)) && |Labels(host)| == |Labels(base)|
  {
    JoinSplit(host, '.');
    JoinSplit(base, '.');
    if EndsWith(host, "." + base) { TextSuffixGivesLabels(host, base); }
    if LabelSuffix(Labels(host), Labels(base)) && |Labels(host)| > |Labels(base)| { LabelsGiveTextSuffix(host, base); }
  }

  lemma {:induction false} NoDots(s: string)
    requires '.' !in s
    ensures CountDots(s) == 0
  {
    if s != "" { NoDots(s[1..]); }
  }

  lemma {:induction false} DotsAdd(a: string, b: string)
    ensures CountDots(a + b) == CountDots(a) + CountDots(b)
  {
    if a == "" {
      assert a + b == b;
    } else {
      assert (a + b)[1..] == a[1..] + b;
      DotsAdd(a[1..], b);
    }
  }

  lemma {:induction false} CountIsLabels(s: string)
    ensures CountDots(s) + 1 == |Labels(s)|
    decreases |s|
  {
    var i := IndexOf(s, '.');
    if i < 0 {
      NoDots(s);
    } else {
      CutAt(s, i);
      NoDots(s[..i]);
      DotsAdd(s[..i] + ".", s[i + 1..]);
      DotsAdd(s[..i], ".");
      assert CountDots(".") == 1;
      CountIsLabels(s[i + 1..]);
    }
  }

  /** A route domain fronts a host exactly when its labels end the host's, strictly for a wildcard; how specific it is
      is how many labels that takes. */
  lemma DomainMatchIsByLabels(host: string, domain: string)
    ensures var base := BaseName(domain);
            DomainMatch(host, domain) ==
              if base != "" && LabelSuffix(Labels(host), Labels(base)) && (IsWildcard(domain) ==> |Labels(host)| > |Labels(base)|)
              then Some(|Labels(base)|) else None
  {
    var base := BaseName(domain);
    TextSuffixIsLabelSuffix(host, base);
    CountIsLabels(base);
  }

  /** Two domains that front one host equally specifically are the same name: a tie is never between two names. */
  lemma TiesAreTheSameName(host: string, d: string, e: string)
    requires DomainMatch(host, d).Some? && DomainMatch(host, d) == DomainMatch(host, e)
    ensures BaseName(d) == BaseName(e)
  {
    DomainMatchIsByLabels(host, d);
    DomainMatchIsByLabels(host, e);
    JoinSplit(BaseName(d), '.');
    JoinSplit(BaseName(e), '.');
  }
}
