/** Library string operations the controllers rely on: joining and splitting on a comma, and the
    alphabetical sort. */
module Strings {

  // ---------- join and split ----------

  function Join(items: seq<string>): string {
    if items == [] then ""
    else if |items| == 1 then items[0]
    else items[0] + "," + Join(items[1..])
  }

  function Split(text: string): seq<string>
    ensures |Split(text)| > 0
  {
    if text == "" then [""]
    else if text[0] == ',' then [""] + Split(text[1..])
    else var rest := Split(text[1..]); [[text[0]] + rest[0]] + rest[1..]
  }

  lemma {:induction false} SplitPlain(item: string)
    requires ',' !in item
    ensures Split(item) == [item]
  {
    if item != "" {
      SplitPlain(item[1..]);
      assert [item[0]] + item[1..] == item;
    }
  }

  lemma {:induction false} SplitFirst(item: string, rest: string)
    requires ',' !in item
    ensures Split(item + "," + rest) == [item] + Split(rest)
  {
    if item == "" {
      assert item + "," + rest == "," + rest && ("," + rest)[1..] == rest;
    } else {
      var text := item + "," + rest;
      assert text[1..] == item[1..] + "," + rest;
      SplitFirst(item[1..], rest);
      assert [item[0]] + item[1..] == item;
    }
  }

  lemma {:induction false} SplitJoin(items: seq<string>)
    requires items != [] && forall s :: s in items ==> ',' !in s
    ensures Split(Join(items)) == items
  {
    assert items[0] in items;
    if |items| == 1 {
      SplitPlain(items[0]);
    } else {
      SplitJoin(items[1..]);
      SplitFirst(items[0], Join(items[1..]));
    }
  }

  lemma JoinExample()
    ensures Join(["a", "b"]) == "a,b" && Split("a,b") == ["a", "b"]
  {
    assert Join(["b"]) == "b" && ["a", "b"][1..] == ["b"];
    SplitJoin(["a", "b"]);
  }

  // ---------- sort ----------

  predicate LexLeq(a: string, b: string) {
    if a == "" then true
    else if b == "" then false
    else a[0] < b[0] || (a[0] == b[0] && LexLeq(a[1..], b[1..]))
  }

  /** The order of a dictionary: the first difference decides, and a prefix comes first. */
  lemma {:induction false} LexDecides(common: string, a: string, b: string)
    requires b != "" && (a == "" || a[0] < b[0])
    ensures LexLeq(common + a, common + b) && !LexLeq(common + b, common + a)
  {
    if common == "" {
      assert common + a == a && common + b == b;
    } else {
      assert (common + a)[1..] == common[1..] + a && (common + b)[1..] == common[1..] + b;
      LexDecides(common[1..], a, b);
    }
  }

  lemma {:induction false} LexTotal(a: string, b: string)
    ensures LexLeq(a, b) || LexLeq(b, a)
    ensures LexLeq(a, b) && LexLeq(b, a) ==> a == b
  {
    if a != "" && b != "" {
      LexTotal(a[1..], b[1..]);
      assert [a[0]] + a[1..] == a && [b[0]] + b[1..] == b;
    }
  }

  lemma {:induction false} LexTransitive(a: string, b: string, c: string)
    requires LexLeq(a, b) && LexLeq(b, c)
    ensures LexLeq(a, c)
  {
    if a != "" && b != "" && c != "" && a[0] == b[0] == c[0] {
      LexTransitive(a[1..], b[1..], c[1..]);
    }
  }

  ghost predicate Sorted(s: seq<string>) {
    forall i, j :: 0 <= i < j < |s| ==> LexLeq(s[i], s[j])
  }

  function Insert(x: string, s: seq<string>): seq<string> {
    if s == [] then [x]
    else if LexLeq(x, s[0]) then [x] + s
    else [s[0]] + Insert(x, s[1..])
  }

  function Sort(s: seq<string>): seq<string> {
    if s == [] then [] else Insert(s[0], Sort(s[1..]))
  }

  lemma HeadIsLeast(s: seq<string>, x: string)
    requires Sorted(s) && x in multiset(s)
    ensures s != [] && LexLeq(s[0], x)
  {
    var i :| 0 <= i < |s| && s[i] == x;
    LexTotal(x, x);
  }

  lemma PrependSorted(x: string, s: seq<string>)
    requires Sorted(s) && forall y :: y in s ==> LexLeq(x, y)
    ensures Sorted([x] + s)
  {}

  lemma {:induction false} InsertSorted(x: string, s: seq<string>)
    requires Sorted(s)
    ensures Sorted(Insert(x, s)) && multiset(Insert(x, s)) == multiset(s) + multiset{x}
  {
    if s != [] {
      assert s == [s[0]] + s[1..];
      if LexLeq(x, s[0]) {
        forall y | y in s ensures LexLeq(x, y) {
          HeadIsLeast(s, y);
          LexTransitive(x, s[0], y);
        }
        PrependSorted(x, s);
      } else {
        LexTotal(x, s[0]);
        InsertSorted(x, s[1..]);
        forall y | y in Insert(x, s[1..]) ensures LexLeq(s[0], y) {
          assert y in multiset(Insert(x, s[1..]));
        }
        PrependSorted(s[0], Insert(x, s[1..]));
      }
    }
  }

  lemma {:induction false} SortSorts(s: seq<string>)
    ensures Sorted(Sort(s)) && multiset(Sort(s)) == multiset(s)
  {
    if s != [] {
      SortSorts(s[1..]);
      InsertSorted(s[0], Sort(s[1..]));
      assert s == [s[0]] + s[1..];
    }
  }

  lemma SameTail(s: seq<string>, t: seq<string>)
    requires s != [] && t != [] && s[0] == t[0] && multiset(s) == multiset(t)
    ensures multiset(s[1..]) == multiset(t[1..])
  {
    assert s == [s[0]] + s[1..] && t == [t[0]] + t[1..];
    assert multiset(s[1..]) == multiset(s) - multiset{s[0]};
    assert multiset(t[1..]) == multiset(t) - multiset{t[0]};
  }

  lemma {:induction false} SortedUnique(s: seq<string>, t: seq<string>)
    requires Sorted(s) && Sorted(t) && multiset(s) == multiset(t)
    ensures s == t
  {
    if s == [] {
      assert |t| == |multiset(t)| == |multiset(s)|;
    } else {
      assert s[0] in multiset(s);
      HeadIsLeast(t, s[0]);
      assert t[0] in multiset(t);
      HeadIsLeast(s, t[0]);
      LexTotal(s[0], t[0]);
      SameTail(s, t);
      SortedUnique(s[1..], t[1..]);
      assert s == [s[0]] + s[1..] && t == [t[0]] + t[1..];
    }
  }

  /** The sorted list does not depend on the order of the input. */
  lemma SortCanonical(s: seq<string>, t: seq<string>)
    requires multiset(s) == multiset(t)
    ensures Sort(s) == Sort(t)
  {
    SortSorts(s);
    SortSorts(t);
    SortedUnique(Sort(s), Sort(t));
  }

  lemma SortMembers(s: seq<string>, x: string)
    ensures x in Sort(s) <==> x in s
    ensures Sort(s) == [] <==> s == []
  {
    SortSorts(s);
    assert x in Sort(s) <==> x in multiset(Sort(s));
    assert x in s <==> x in multiset(s);
    assert |Sort(s)| == |multiset(Sort(s))| && |s| == |multiset(s)|;
  }
}
