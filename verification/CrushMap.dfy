/** The CRUSH map editor: buckets are parsed out of the decompiled text, added, printed and parsed again. */
module CrushMap {
  import opened Wrappers

  // The text is the list of its words, separated by white space.
  type Text = seq<string>

  datatype Root = Root(name: string, id: int)

  datatype Bucket = Bucket(name: string, id: int, isDefault: bool)

  // ----- Numbers -----

  predicate AllDigits(s: string)
  {
    |s| > 0 && forall i :: 0 <= i < |s| ==> '0' <= s[i] <= '9'
  }

  /** -?\d+ */
  predicate IsNumber(s: string)
  {
    AllDigits(s) || (s != [] && s[0] == '-' && AllDigits(s[1..]))
  }

  function Value(s: string): nat
    requires AllDigits(s)
  {
    var last := s[|s| - 1];
    (if |s| == 1 then 0 else 10 * Value(s[..|s| - 1])) + (last as int - '0' as int)
  }

  /** int(x) of a matched number */
  function ParseInt(s: string): int
    requires IsNumber(s)
  {
    if AllDigits(s) then Value(s) else -(Value(s[1..]) as int)
  }

  function Digits(n: nat): (s: string)
    ensures AllDigits(s)
  {
    (if n < 10 then [] else Digits(n / 10)) + [('0' as int + n % 10) as char]
  }

  function Decimal(z: int): string
  {
    if z < 0 then "-" + Digits(-z) else Digits(z)
  }

  lemma {:induction false} ValueOfDigits(n: nat)
    ensures Value(Digits(n)) == n
  {
    var s := Digits(n);
    if n >= 10 {
      ValueOfDigits(n / 10);
      assert s[..|s| - 1] == Digits(n / 10);
    }
  }

  lemma ParseOfDecimal(z: int)
    ensures IsNumber(Decimal(z)) && ParseInt(Decimal(z)) == z
  {
    hide Value, Digits;
    if z < 0 {
      ValueOfDigits(-z);
      assert Decimal(z)[1..] == Digits(-z);
      assert Decimal(z)[0] == '-';
    } else {
      ValueOfDigits(z);
    }
  }

  // ----- Parsing -----

  predicate EndsWith(s: string, suffix: string)
  {
    |suffix| <= |s| && s[|s| - |suffix|..] == suffix
  }

  /** root\s+(.+)\s+\{\s*id\s+(-?\d+) matches at the head of the text. */
  predicate RootHere(t: Text)
  {
    |t| >= 5 && EndsWith(t[0], "root") && t[2] == "{" && t[3] == "id" && IsNumber(t[4])
  }

  /** id\s+(-?\d+) matches at the head of the text. */
  predicate IdHere(t: Text)
  {
    |t| >= 2 && EndsWith(t[0], "id") && IsNumber(t[1])
  }

  /** re.findall(CRUSHMAP_BUCKETS_RE, text) */
  function FindRoots(t: Text): seq<Root>
  {
    if t == [] then []
    else if RootHere(t) then [Root(t[1], ParseInt(t[4]))] + FindRoots(t[5..])
    else FindRoots(t[1..])
  }

  /** re.findall(CRUSHMAP_ID_RE, text) */
  function FindIds(t: Text): seq<int>
  {
    if t == [] then []
    else if IdHere(t) then [ParseInt(t[1])] + FindIds(t[2..])
    else FindIds(t[1..])
  }

  // ----- Printing -----

  const BUCKET_END: Text := ["#", "do", "not", "change", "unnecessarily", "#", "weight", "0.000",
                             "alg", "straw2", "hash", "0", "#", "rjenkins1", "}", "rule"]

  const RULE_START: Text := ["ruleset", "0", "type", "replicated", "min_size", "1", "max_size", "10", "step", "take"]

  const RULE_END: Text := ["step", "chooseleaf", "firstn", "0", "type", "host", "step", "emit", "}"]

  /** What the template says after the id. */
  function Rest(name: string): Text
  {
    BUCKET_END + [name, "{"] + RULE_START + [name] + RULE_END
  }

  /** CRUSH_BUCKET.format(name=name, id=id) */
  function BucketText(root: Root): Text
  {
    ["root", root.name, "{", "id", Decimal(root.id)] + Rest(root.name)
  }

  function Printed(text: Text, added: seq<Root>): Text
  {
    if added == [] then text else Printed(text, added[..|added| - 1]) + BucketText(added[|added| - 1])
  }

  /** The words of the template, with the name in four places and the id in one. */
  lemma BucketTextIsTemplate(name: string, id: int)
    ensures BucketText(Root(name, id)) ==
      ["root", name, "{", "id", Decimal(id)] +
      (["#", "do", "not", "change", "unnecessarily", "#", "weight", "0.000",
        "alg", "straw2", "hash", "0", "#", "rjenkins1", "}", "rule"] + [name, "{"] +
       ["ruleset", "0", "type", "replicated", "min_size", "1", "max_size", "10", "step", "take"] + [name] +
       ["step", "chooseleaf", "firstn", "0", "type", "host", "step", "emit", "}"])
  {
  }

  /** Both patterns also match at the end of a longer word. */
  lemma WordsEndingLikeThis(word: string, name: string, z: int)
    ensures FindRoots([word + "root", name, "{", "id", Decimal(z)]) == [Root(name, z)]
    ensures FindIds([word + "id", Decimal(z)]) == [z]
  {
    ParseOfDecimal(z);
    var t := [word + "root", name, "{", "id", Decimal(z)];
    assert (word + "root")[|word + "root"| - 4..] == "root" && t[5..] == [];
    var u := [word + "id", Decimal(z)];
    assert (word + "id")[|word + "id"| - 2..] == "id" && u[2..] == [];
  }

  // ----- One bucket printed and parsed -----

  predicate Quiet(t: Text)
  {
    forall i :: 0 <= i < |t| ==> !RootHere(t[i..]) && !IdHere(t[i..])
  }

  lemma {:induction false} QuietFindsNothing(t: Text)
    requires Quiet(t)
    ensures FindRoots(t) == [] && FindIds(t) == []
  {
    if t != [] {
      assert t[0..] == t;
      assert forall i :: 0 <= i < |t[1..]| ==> t[1..][i..] == t[i + 1..];
      QuietFindsNothing(t[1..]);
    }
  }

  predicate Plain(t: Text)
  {
    forall i :: 0 <= i < |t| ==> t[i] != "{" && !EndsWith(t[i], "id")
  }

  lemma TemplateIsPlain()
    ensures Plain(BUCKET_END) && Plain(RULE_START) && Plain(RULE_END)
  {
  }

  lemma NotANumber(s: string)
    requires s != [] && s[0] != '-' && !('0' <= s[0] <= '9')
    ensures !IsNumber(s)
  {
  }

  lemma Literals()
    ensures EndsWith("root", "root") && EndsWith("id", "id") && !EndsWith("root", "id") && !EndsWith("{", "id")
    ensures !IsNumber("root") && !IsNumber("id") && !IsNumber("{") && !IsNumber("step")
  {
    hide IsNumber;
    NotANumber("root");
    NotANumber("id");
    NotANumber("{");
    NotANumber("step");
  }

  lemma RestIsQuiet(name: string)
    ensures Quiet(Rest(name))
  {
    var t := Rest(name);
    TemplateIsPlain();
    Literals();
    hide EndsWith, IsNumber;
    assert |BUCKET_END| == 16 && |RULE_START| == 10 && RULE_START[0] == "ruleset" && RULE_END[0] == "step";
    forall i | 0 <= i < |t|
      ensures !RootHere(t[i..])
    {
      var u := t[i..];
    }
    forall i | 0 <= i < |t|
      ensures !IdHere(t[i..])
    {
      var u := t[i..];
    }
  }

  lemma BucketIsParsed(root: Root)
    ensures FindRoots(BucketText(root)) == [root]
    ensures FindIds(BucketText(root)) == [root.id]
  {
    var t := BucketText(root);
    ParseOfDecimal(root.id);
    RestIsQuiet(root.name);
    QuietFindsNothing(Rest(root.name));
    assert t[5..] == Rest(root.name);
    Literals();
    IdsOfBucket(root);
  }

  lemma IdsOfBucket(root: Root)
    requires IsNumber(Decimal(root.id)) && ParseInt(Decimal(root.id)) == root.id && FindIds(Rest(root.name)) == []
    ensures FindIds(BucketText(root)) == [root.id]
  {
    Literals();
    hide IsNumber, ParseInt, Rest, Decimal, EndsWith;
    var t := BucketText(root);
    assert FindIds(t[3..]) == [root.id] by {
      assert t[3..][2..] == Rest(root.name);
    }
    assert t[1..][1..] == t[2..] && t[2..][1..] == t[3..];
    assert FindIds(t[2..]) == FindIds(t[3..]);
    assert FindIds(t[1..]) == FindIds(t[2..]);
  }

  /** A match does not begin in the text and end in the bucket printed after it. */
  lemma NoRootAcross(text: Text, more: Text)
    requires text != [] && |more| >= 3 && more[0] == "root" && more[2] == "{"
    ensures RootHere(text + more) <==> RootHere(text)
  {
    Literals();
    hide EndsWith, IsNumber;
    assert forall i :: 0 <= i < |text| ==> (text + more)[i] == text[i];
    if |text| < 5 {
      assert (text + more)[|text|] == "root" && (text + more)[|text| + 2] == "{";
    }
  }

  lemma {:induction false} RootsOfExtended(text: Text, more: Text)
    requires |more| >= 3 && more[0] == "root" && more[2] == "{"
    ensures FindRoots(text + more) == FindRoots(text) + FindRoots(more)
  {
    if text == [] {
      assert text + more == more;
    } else {
      NoRootAcross(text, more);
      var step := if RootHere(text) then 5 else 1;
      assert |text| >= step;
      hide RootHere;
      assert (text + more)[step..] == text[step..] + more;
      RootsOfExtended(text[step..], more);
      if RootHere(text) {
        assert text[1] == (text + more)[1] && text[4] == (text + more)[4];
      }
    }
  }

  lemma {:induction false} IdsOfExtended(text: Text, more: Text)
    requires more != [] && !IsNumber(more[0])
    ensures FindIds(text + more) == FindIds(text) + FindIds(more)
  {
    hide EndsWith, IsNumber;
    if text == [] {
      assert text + more == more;
    } else {
      assert IdHere(text + more) <==> IdHere(text) by {
        assert |text| == 1 ==> (text + more)[1] == more[0];
      }
      var step := if IdHere(text) then 2 else 1;
      assert (text + more)[step..] == text[step..] + more;
      IdsOfExtended(text[step..], more);
      if IdHere(text) {
        assert text[1] == (text + more)[1];
      }
    }
  }

  lemma BucketIsAppended(text: Text, root: Root)
    ensures FindRoots(text + BucketText(root)) == FindRoots(text) + [root]
    ensures FindIds(text + BucketText(root)) == FindIds(text) + [root.id]
  {
    Literals();
    BucketIsParsed(root);
    hide FindRoots, FindIds, EndsWith, IsNumber, Rest;
    RootsOfExtended(text, BucketText(root));
    IdsOfExtended(text, BucketText(root));
  }

  function Ids(roots: seq<Root>): (ids: seq<int>)
    ensures |ids| == |roots| && forall i :: 0 <= i < |ids| ==> ids[i] == roots[i].id
  {
    seq(|roots|, i requires 0 <= i < |roots| => roots[i].id)
  }

  /** Parsing the printed map gives the original roots followed by the added ones, in order; the same for the ids. */
  lemma {:induction false} ReparseOfPrinted(text: Text, added: seq<Root>)
    ensures FindRoots(Printed(text, added)) == FindRoots(text) + added
    ensures FindIds(Printed(text, added)) == FindIds(text) + Ids(added)
  {
    if added == [] {
      assert FindIds(text) + Ids(added) == FindIds(text);
    } else {
      var last := |added| - 1;
      var before := Printed(text, added[..last]);
      ReparseOfPrinted(text, added[..last]);
      BucketIsAppended(before, added[last]);
      assert Printed(text, added) == before + BucketText(added[last]);
      hide FindRoots, FindIds, Printed, BucketText;
      AppendLast(FindRoots(text), added);
      AppendLast(FindIds(text), Ids(added));
      assert Ids(added)[..last] == Ids(added[..last]);
    }
  }

  lemma AppendLast<T>(s: seq<T>, t: seq<T>)
    requires t != []
    ensures s + t == (s + t[..|t| - 1]) + [t[|t| - 1]]
  {
  }

  // ----- Allocating ids -----

  function Insert(x: int, sorted: seq<int>): (s: seq<int>)
    ensures multiset(s) == multiset(sorted) + multiset{x}
  {
    if sorted == [] || x <= sorted[0] then [x] + sorted
    else
      assert sorted == [sorted[0]] + sorted[1..];
      [sorted[0]] + Insert(x, sorted[1..])
  }

  /** sorted(ids) */
  function Sorted(ids: seq<int>): (s: seq<int>)
    ensures multiset(s) == multiset(ids)
  {
    if ids == [] then []
    else
      assert ids == [ids[0]] + ids[1..];
      Insert(ids[0], Sorted(ids[1..]))
  }

  predicate Ascending(s: seq<int>)
  {
    forall i, j :: 0 <= i < j < |s| ==> s[i] <= s[j]
  }

  lemma {:induction false} InsertKeepsOrder(x: int, sorted: seq<int>)
    requires Ascending(sorted)
    ensures Ascending(Insert(x, sorted))
  {
    if sorted != [] && x > sorted[0] {
      var s := Insert(x, sorted[1..]);
      InsertKeepsOrder(x, sorted[1..]);
      forall i | 0 <= i < |s|
        ensures sorted[0] <= s[i]
      {
        assert s[i] in multiset(s) && (s[i] == x || s[i] in multiset(sorted[1..]));
        assert s[i] == x || s[i] in sorted[1..];
      }
    }
  }

  lemma {:induction false} SortedAscends(ids: seq<int>)
    ensures Ascending(Sorted(ids))
  {
    if ids != [] {
      SortedAscends(ids[1..]);
      InsertKeepsOrder(ids[0], Sorted(ids[1..]));
    }
  }

  function Min(ids: seq<int>): int
    requires ids != []
  {
    if |ids| == 1 then ids[0] else if ids[0] <= Min(ids[1..]) then ids[0] else Min(ids[1..])
  }

  lemma {:induction false} MinIsLeast(ids: seq<int>)
    requires ids != []
    ensures Min(ids) in ids && forall i :: i in ids ==> Min(ids) <= i
  {
    if |ids| > 1 {
      MinIsLeast(ids[1..]);
      assert forall i :: i in ids <==> i == ids[0] || i in ids[1..];
    }
  }

  lemma MinIs(ids: seq<int>, m: int)
    requires m in ids && forall i :: i in ids ==> m <= i
    ensures Min(ids) == m
  {
    MinIsLeast(ids);
  }

  lemma MinOfExtended(ids: seq<int>, x: int)
    requires ids != [] && x < Min(ids)
    ensures Min(ids + [x]) == x
  {
    MinIsLeast(ids);
    MinIs(ids + [x], x);
  }

  /** The ids known after loading: those in the text, or a single 0 when it has none. */
  function StartIds(text: Text): (ids: seq<int>)
    ensures ids != []
  {
    if FindIds(text) == [] then [0]
    else
      assert FindIds(text)[0] in multiset(Sorted(FindIds(text)));
      Sorted(FindIds(text))
  }

  lemma StartIdsMembers(text: Text, i: int)
    requires FindIds(text) != []
    ensures i in StartIds(text) <==> i in FindIds(text)
  {
    assert i in StartIds(text) <==> i in multiset(StartIds(text));
    assert i in FindIds(text) <==> i in multiset(FindIds(text));
  }

  /** A loaded map and what was added to it since. */
  datatype Session = Session(text: Text, added: seq<Root>)

  function AllIds(s: Session): (ids: seq<int>)
    ensures ids != []
  {
    StartIds(s.text) + Ids(s.added)
  }

  function Roots(s: Session): seq<Root>
  {
    FindRoots(s.text) + s.added
  }

  predicate HasBucket(s: Session, name: string)
  {
    exists r :: r in Roots(s) && r.name == name
  }

  function AfterAdd(s: Session, name: string): Session
  {
    s.(added := s.added + [Root(name, Min(AllIds(s)) - 1)])
  }

  function AfterEnsure(s: Session, name: string): Session
  {
    if HasBucket(s, name) then s else AfterAdd(s, name)
  }

  function Output(s: Session): Text
  {
    Printed(s.text, s.added)
  }

  /** Loading `text` and adding buckets of these names. */
  function AfterAdds(text: Text, names: seq<string>): Session
  {
    if names == [] then Session(text, []) else AfterAdd(AfterAdds(text, names[..|names| - 1]), names[|names| - 1])
  }

  lemma IdsOfAdded(s: Session, r: Root)
    ensures AllIds(s.(added := s.added + [r])) == AllIds(s) + [r.id]
  {
    assert Ids(s.added + [r]) == Ids(s.added) + [r.id];
  }

  /** The i-th added bucket has its name and the id i + 1 below the least of the original text. */
  lemma {:induction false} AddedIds(text: Text, names: seq<string>)
    ensures var s := AfterAdds(text, names);
      && s.text == text && |s.added| == |names|
      && (forall i :: 0 <= i < |names| ==> s.added[i] == Root(names[i], Min(StartIds(text)) - 1 - i))
      && Min(AllIds(s)) == Min(StartIds(text)) - |names|
  {
    var s := AfterAdds(text, names);
    hide Min, StartIds;
    if names == [] {
      assert AllIds(s) == StartIds(text);
    } else {
      hide AllIds;
      var n := |names| - 1;
      var before := AfterAdds(text, names[..n]);
      AddedIds(text, names[..n]);
      assert s == AfterAdd(before, names[n]);
      hide AfterAdds;
      IdsOfAdded(before, s.added[n]);
      MinOfExtended(AllIds(before), s.added[n].id);
    }
  }

  lemma {:induction false} RootPosition(text: Text, r: Root) returns (k: nat)
    requires r in FindRoots(text)
    ensures k < |text| && RootHere(text[k..]) && r == Root(text[k + 1], ParseInt(text[k + 4]))
  {
    k := 0;
    if RootHere(text) {
      assert text[0..] == text;
      if r != Root(text[1], ParseInt(text[4])) {
        k := RootPosition(text[5..], r);
        assert text[5..][k..] == text[k + 5..];
        k := k + 5;
      }
    } else {
      k := RootPosition(text[1..], r);
      assert text[1..][k..] == text[k + 1..];
      k := k + 1;
    }
  }

  lemma {:induction false} IdIsFound(text: Text, k: nat)
    requires k + 1 < |text| && text[k] == "id" && IsNumber(text[k + 1])
    ensures ParseInt(text[k + 1]) in FindIds(text)
  {
    Literals();
    hide EndsWith, IsNumber, ParseInt;
    if k == 0 {
    } else if IdHere(text) {
      IdIsFound(text[2..], k - 2);
    } else {
      IdIsFound(text[1..], k - 1);
    }
  }

  /** The id of a parsed root is one of the parsed ids. */
  lemma RootIdIsAnId(text: Text, r: Root)
    requires r in FindRoots(text)
    ensures r.id in FindIds(text)
  {
    var k := RootPosition(text, r);
    IdIsFound(text, k + 3);
  }

  /** Added ids never collide: not with one another, not with an id in the text, not with that of a parsed root. */
  lemma AddedIdsAreFresh(text: Text, names: seq<string>)
    ensures var added := AfterAdds(text, names).added;
      && (forall i, j :: 0 <= i < j < |added| ==> added[j].id < added[i].id)
      && (forall i, id :: 0 <= i < |added| && id in FindIds(text) ==> added[i].id < id)
      && (forall i, r :: 0 <= i < |added| && r in FindRoots(text) ==> added[i].id < r.id)
  {
    AddedIds(text, names);
    forall id | id in FindIds(text)
      ensures Min(StartIds(text)) <= id
    {
      StartIdsMembers(text, id);
      MinIsLeast(StartIds(text));
    }
    forall r | r in FindRoots(text)
      ensures r.id in FindIds(text)
    {
      RootIdIsAnId(text, r);
    }
  }

  // ----- Across a save and a load -----

  lemma {:induction false} PrintedTwice(text: Text, first: seq<Root>, second: seq<Root>)
    ensures Printed(Printed(text, first), second) == Printed(text, first + second)
  {
    if second == [] {
      assert first + second == first;
    } else {
      var n := |second| - 1;
      PrintedTwice(text, first, second[..n]);
      assert (first + second)[..|first| + n] == first + second[..n];
    }
  }

  /** The next id is the same whether or not the map was printed and loaded in between. */
  lemma LeastIdSurvivesReload(text: Text, names: seq<string>)
    ensures Min(StartIds(Output(AfterAdds(text, names)))) == Min(AllIds(AfterAdds(text, names)))
  {
    var s := AfterAdds(text, names);
    AddedIds(text, names);
    hide AfterAdds, Printed;
    ReparseOfPrinted(text, s.added);
    if names == [] {
      assert AllIds(s) == StartIds(text);
      assert FindIds(text) + Ids(s.added) == FindIds(text);
    } else {
      var last := s.added[|names| - 1].id;
      assert Ids(s.added)[|names| - 1] == last;
      forall i | i in StartIds(Output(s))
        ensures last <= i
      {
        StartIdsMembers(Output(s), i);
        if i in FindIds(text) {
          StartIdsMembers(text, i);
          MinIsLeast(StartIds(text));
        }
      }
      StartIdsMembers(Output(s), last);
      MinIs(StartIds(Output(s)), last);
    }
  }

  /** Adding in two sessions, with a save and a load between them, gives the same map as adding in one. */
  lemma SessionsCompose(text: Text, first: seq<string>, second: seq<string>)
    ensures var between := Output(AfterAdds(text, first));
      && AfterAdds(text, first + second).added == AfterAdds(text, first).added + AfterAdds(between, second).added
      && Output(AfterAdds(text, first + second)) == Output(AfterAdds(between, second))
  {
    var between := Output(AfterAdds(text, first));
    AddedIds(text, first);
    AddedIds(text, first + second);
    AddedIds(between, second);
    LeastIdSurvivesReload(text, first);
    hide AfterAdds, Min, StartIds, AllIds, Printed;
    assert AfterAdds(text, first + second).added == AfterAdds(text, first).added + AfterAdds(between, second).added;
    PrintedTwice(text, AfterAdds(text, first).added, AfterAdds(between, second).added);
  }

  /** Loading what was printed gives the same buckets, so a bucket once ensured is not added again. */
  lemma EnsureSurvivesReload(s: Session, name: string)
    ensures var t := AfterEnsure(s, name);
      && Roots(Session(Output(t), [])) == Roots(t)
      && AfterEnsure(Session(Output(t), []), name) == Session(Output(t), [])
      && AfterEnsure(t, name) == t
  {
    var t := AfterEnsure(s, name);
    ReparseOfPrinted(t.text, t.added);
    assert HasBucket(t, name) by {
      if !HasBucket(s, name) {
        assert t.added[|s.added|] in Roots(t);
      }
    }
    assert Roots(Session(Output(t), [])) == Roots(t);
  }

  /** `id` is one below the least id that is known; without any id that is -1. */
  ghost predicate IsNextId(s: Session, id: int)
  {
    && (forall i :: i in FindIds(s.text) || i in Ids(s.added) ==> id < i)
    && if FindIds(s.text) == [] then id < 0 && (id + 1 == 0 || id + 1 in Ids(s.added))
       else id + 1 in FindIds(s.text) || id + 1 in Ids(s.added)
  }

  lemma NextIdIsNext(s: Session)
    ensures IsNextId(s, Min(AllIds(s)) - 1)
  {
    var ids := AllIds(s);
    MinIsLeast(ids);
    forall i
      ensures i in ids <==> i in StartIds(s.text) || i in Ids(s.added)
      ensures FindIds(s.text) != [] ==> (i in StartIds(s.text) <==> i in FindIds(s.text))
    {
      if FindIds(s.text) != [] {
        StartIdsMembers(s.text, i);
      }
    }
    if FindIds(s.text) == [] {
      assert StartIds(s.text) == [0] && 0 in ids;
    }
  }

  /** What adding a bucket means for the map, for the ids and for the text. */
  ghost predicate IsAddition(s: Session, name: string, id: int, t: Session)
  {
    Roots(t) == Roots(s) + [Root(name, id)] && IsNextId(s, id) && FindRoots(Output(t)) == Roots(t)
  }

  lemma AddingIsAddition(s: Session, name: string)
    ensures IsAddition(s, name, Min(AllIds(s)) - 1, AfterAdd(s, name))
    ensures HasBucket(AfterAdd(s, name), name)
  {
    var t, id := AfterAdd(s, name), Min(AllIds(s)) - 1;
    NextIdIsNext(s);
    ReparseOfPrinted(t.text, t.added);
    hide Min, AllIds, IsNextId, Printed, FindRoots, FindIds, Ids;
    assert Roots(t) == Roots(s) + [Root(name, id)];
    assert Roots(t)[|Roots(s)|] == Root(name, id);
  }

  /**
   * After ensuring a bucket there is one of its name. If there was one, nothing has changed; if not, the map has one
   * bucket more, of this name and with the next id, and loading the new text gives just this list.
   */
  lemma EnsureAddsWhatIsMissing(s: Session, name: string)
    ensures HasBucket(AfterEnsure(s, name), name)
    ensures HasBucket(s, name) ==> AfterEnsure(s, name) == s
    ensures !HasBucket(s, name) ==> exists id :: IsAddition(s, name, id, AfterEnsure(s, name))
  {
    AddingIsAddition(s, name);
    hide HasBucket, IsAddition, AfterAdd;
  }

  // ----- The object -----

  function AsBuckets(roots: seq<Root>, isDefault: bool): (b: seq<Bucket>)
    ensures |b| == |roots|
    ensures forall i :: 0 <= i < |b| ==> b[i] == Bucket(roots[i].name, roots[i].id, isDefault)
  {
    seq(|roots|, i requires 0 <= i < |roots| => Bucket(roots[i].name, roots[i].id, isDefault))
  }

  class Crushmap {
    const text: Text
    var ids: seq<int>
    var buckets: seq<Bucket>
    ghost var added: seq<Root>

    ghost predicate Valid()
      reads this
    {
      && ids == AllIds(View())
      && buckets == AsBuckets(FindRoots(text), true) + AsBuckets(added, false)
    }

    ghost function View(): Session
      reads this
    {
      Session(text, added)
    }

    /** __init__, given the decompiled map */
    constructor (decompiled: Text)
      ensures Valid() && View() == Session(decompiled, [])
    {
      var roots := FindRoots(decompiled);
      var found := FindIds(decompiled);
      var parsed: seq<Bucket> := [];
      for i := 0 to |roots|
        invariant parsed == AsBuckets(roots[..i], true)
      {
        parsed := parsed + [Bucket(roots[i].name, roots[i].id, true)];
      }
      assert roots[..|roots|] == roots;
      text := decompiled;
      buckets := parsed;
      ids := if found != [] then Sorted(found) else [0];
      added := [];
    }

    /** The names of buckets() contain `name`. */
    method Contains(name: string) returns (present: bool)
      requires Valid()
      ensures present == HasBucket(View(), name)
    {
      present := false;
      for i := 0 to |buckets|
        invariant present == exists k :: 0 <= k < i && buckets[k].name == name
      {
        if buckets[i].name == name {
          present := true;
        }
      }
      BucketsAreRoots(name);
    }

    lemma BucketsAreRoots(name: string)
      requires Valid()
      ensures HasBucket(View(), name) <==> exists k :: 0 <= k < |buckets| && buckets[k].name == name
    {
      var roots := Roots(View());
      assert |roots| == |buckets|;
      assert forall k :: 0 <= k < |roots| ==> roots[k].name == buckets[k].name;
      if HasBucket(View(), name) {
        var r :| r in roots && r.name == name;
        var k :| 0 <= k < |roots| && roots[k] == r;
        assert buckets[k].name == name;
      }
      if k :| 0 <= k < |buckets| && buckets[k].name == name {
        assert roots[k] in roots;
      }
    }

    method AddBucket(name: string)
      requires Valid()
      modifies this
      ensures Valid() && View() == AfterAdd(old(View()), name)
      ensures ids != [] && forall i :: i in old(ids) ==> ids[|ids| - 1] < i
    {
      MinIsLeast(ids);
      hide Min;
      var newId := Min(ids) - 1;
      ids := ids + [newId];
      buckets := buckets + [Bucket(name, newId, false)];
      added := added + [Root(name, newId)];
      IdsOfAdded(old(View()), Root(name, newId));
      assert AsBuckets(added, false) == AsBuckets(old(added), false) + [Bucket(name, newId, false)];
    }

    /** `saved` is what save() hands to the compiler, if it is called. */
    method EnsureBucketIsPresent(name: string) returns (saved: Option<Text>)
      requires Valid()
      modifies this
      ensures Valid() && View() == AfterEnsure(old(View()), name)
      ensures saved == if HasBucket(old(View()), name) then None else Some(Output(View()))
      ensures HasBucket(View(), name)
      ensures !HasBucket(old(View()), name) ==> exists id :: IsAddition(old(View()), name, id, View())
    {
      EnsureAddsWhatIsMissing(View(), name);
      saved := None;
      var present := Contains(name);
      if !present {
        AddBucket(name);
        var output := BuildCrushmap();
        saved := Some(output);
      }
    }

    method BuildCrushmap() returns (output: Text)
      requires Valid()
      ensures output == Output(View())
    {
      output := text;
      var n := |FindRoots(text)|;
      for i := 0 to |buckets|
        invariant output == Printed(text, if i <= n then [] else added[..i - n])
      {
        if !buckets[i].isDefault {
          output := output + BucketText(Root(buckets[i].name, buckets[i].id));
          assert added[..i + 1 - n][..i - n] == added[..i - n];
        }
      }
      assert added[..|added|] == added;
    }
  }
}
