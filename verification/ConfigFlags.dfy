/** The parser of `key1=value1, key2=value2,value3` strings, and its round trip. */
module ConfigFlags {
  import opened Wrappers

  // ----- Python's string functions -----

  predicate Lacks(s: string, c: char)
  {
    forall j :: 0 <= j < |s| ==> s[j] != c
  }

  /** `s.find(c)` for a single character. */
  function Find(s: string, c: char): (i: int)
    ensures -1 <= i < |s|
    ensures i == -1 ==> Lacks(s, c)
    ensures i >= 0 ==> s[i] == c && forall j :: 0 <= j < i ==> s[j] != c
  {
    if s == "" then -1
    else
      var init := s[..|s| - 1];
      var i := Find(init, c);
      if i >= 0 then i
      else if s[|s| - 1] == c then |s| - 1
      else -1
  }

  /** `s.rfind(c)` for a single character. */
  function RFind(s: string, c: char): (i: int)
    ensures -1 <= i < |s|
    ensures i == -1 ==> Lacks(s, c)
    ensures i >= 0 ==> s[i] == c && forall j :: i < j < |s| ==> s[j] != c
  {
    if s == "" then -1
    else if s[|s| - 1] == c then |s| - 1
    else RFind(s[..|s| - 1], c)
  }

  /** `'==' in s` */
  predicate HasDoubleEquals(s: string)
  {
    |s| >= 2 && ((s[|s| - 1] == '=' && s[|s| - 2] == '=') || HasDoubleEquals(s[..|s| - 1]))
  }

  function RStrip(s: string, cs: set<char>): string
  {
    if s != "" && s[|s| - 1] in cs then RStrip(s[..|s| - 1], cs) else s
  }

  function LStrip(s: string, cs: set<char>): string
  {
    if s != "" && s[0] in cs then LStrip(s[1..], cs) else s
  }

  function Strip(s: string, cs: set<char>): string
  {
    LStrip(RStrip(s, cs), cs)
  }

  /** `s.split('=')` */
  function Split(s: string): (pieces: seq<string>)
    ensures pieces != []
  {
    if s == "" then [""]
    else
      var pieces := Split(s[..|s| - 1]);
      var c := s[|s| - 1];
      if c == '=' then pieces + [""] else pieces[..|pieces| - 1] + [pieces[|pieces| - 1] + [c]]
  }

  // ----- The parser as a function -----

  type Items = seq<(string, string)>

  /** The text is handed to the YAML parser, or refused, or parsed to an ordered dictionary. */
  datatype ParseResult = Yaml(text: string) | ContextError | Flags(items: Items)

  predicate HasKey(items: Items, key: string)
  {
    exists i :: 0 <= i < |items| && items[i].0 == key
  }

  /** Assignment in an ordered dictionary: an existing key keeps its place. */
  function SetItem(items: Items, key: string, value: string): Items
  {
    if !HasKey(items, key) then items + [(key, value)]
    else if items[|items| - 1].0 == key then items[..|items| - 1] + [(key, value)]
    else
      assert HasKey(items[..|items| - 1], key) by {
        var i :| 0 <= i < |items| && items[i].0 == key;
        assert items[..|items| - 1][i].0 == key;
      }
      SetItem(items[..|items| - 1], key, value) + [items[|items| - 1]]
  }

  const POST_STRIPPERS := {' ', ','}

  /** The key of entry `i` stands behind the last comma of its piece, except for the first piece. */
  function KeyAt(pieces: seq<string>, i: nat): Option<string>
    requires i < |pieces|
  {
    if i == 0 then Some(pieces[0])
    else
      var index := RFind(pieces[i], ',');
      if index < 0 then None else Some(pieces[i][index + 1..])
  }

  /** The value stands before the last comma of the next piece, except in the last piece. */
  function ValueAt(pieces: seq<string>, i: nat): string
    requires i + 1 < |pieces|
  {
    var next := pieces[i + 1];
    var vindex := RFind(next, ',');
    if i + 2 == |pieces| || vindex < 0 then next else next[..vindex]
  }

  /** One entry: the stripped key and value, or nothing when the key is missing. */
  function EntryAt(pieces: seq<string>, i: nat): Option<(string, string)>
    requires i + 1 < |pieces|
  {
    match KeyAt(pieces, i)
    case None => None
    case Some(key) => Some((Strip(key, POST_STRIPPERS), RStrip(ValueAt(pieces, i), POST_STRIPPERS)))
  }

  function FlagsUpTo(pieces: seq<string>, n: nat): Option<Items>
    requires n < |pieces|
  {
    if n == 0 then Some([])
    else
      match FlagsUpTo(pieces, n - 1)
      case None => None
      case Some(items) =>
        match EntryAt(pieces, n - 1)
        case None => None
        case Some(entry) => Some(SetItem(items, entry.0, entry.1))
  }

  /** A colon before the first equals sign, or without any, marks YAML. */
  predicate LooksLikeYaml(s: string)
  {
    var colon, equals := Find(s, ':'), Find(s, '=');
    colon > 0 && (colon < equals || equals < 0)
  }

  function Pieces(s: string): (pieces: seq<string>)
    ensures pieces != []
  {
    Split(Strip(s, {' ', '='}))
  }

  function Parse(s: string): ParseResult
  {
    if LooksLikeYaml(s) then Yaml(s)
    else if HasDoubleEquals(s) then ContextError
    else
      match FlagsUpTo(Pieces(s), |Pieces(s)| - 1)
      case None => ContextError
      case Some(items) => Flags(items)
  }

  /** YAML is what has a colon, not in the first place, and no equals sign before its first colon. */
  lemma YamlExactly(s: string)
    ensures Parse(s).Yaml? <==> exists i :: 0 < i < |s| && s[i] == ':' && Lacks(s[..i], ':') && Lacks(s[..i], '=')
    ensures Parse(s).Yaml? ==> Parse(s).text == s
  {
    var colon, equals := Find(s, ':'), Find(s, '=');
    if colon > 0 && (colon < equals || equals < 0) {
      assert Lacks(s[..colon], ':') && Lacks(s[..colon], '=');
    }
    if i :| 0 < i < |s| && s[i] == ':' && Lacks(s[..i], ':') && Lacks(s[..i], '=') {
      assert forall j :: 0 <= j < i ==> s[..i][j] == s[j];
      assert colon == i;
    }
  }

  lemma {:induction false} DoubleEqualsMeaning(s: string)
    ensures HasDoubleEquals(s) <==> exists i :: 0 <= i < |s| - 1 && s[i] == '=' && s[i + 1] == '='
  {
    if |s| >= 2 {
      var init := s[..|s| - 1];
      DoubleEqualsMeaning(init);
      if i :| 0 <= i < |s| - 1 && s[i] == '=' && s[i + 1] == '=' {
        assert i < |s| - 2 ==> init[i] == '=' && init[i + 1] == '=';
      }
      if i :| 0 <= i < |init| - 1 && init[i] == '=' && init[i + 1] == '=' {
        assert s[i] == '=' && s[i + 1] == '=';
      }
    }
  }

  // ----- What is parsed -----

  predicate Only(s: string, cs: set<char>)
  {
    forall j :: 0 <= j < |s| ==> s[j] in cs
  }

  predicate Bare(s: string, cs: set<char>)
  {
    s != "" ==> s[0] !in cs && s[|s| - 1] !in cs
  }

  lemma {:induction false} RStripMeaning(s: string, cs: set<char>) returns (tail: string)
    ensures s == RStrip(s, cs) + tail && Only(tail, cs)
    ensures RStrip(s, cs) != "" ==> RStrip(s, cs)[|RStrip(s, cs)| - 1] !in cs
  {
    if s != "" && s[|s| - 1] in cs {
      var t := RStripMeaning(s[..|s| - 1], cs);
      tail := t + [s[|s| - 1]];
    } else {
      tail := "";
    }
  }

  lemma {:induction false} LStripMeaning(s: string, cs: set<char>) returns (head: string)
    ensures s == head + LStrip(s, cs) && Only(head, cs)
    ensures LStrip(s, cs) != "" ==> LStrip(s, cs)[0] !in cs
  {
    if s != "" && s[0] in cs {
      var h := LStripMeaning(s[1..], cs);
      head := [s[0]] + h;
    } else {
      head := "";
    }
  }

  lemma StripMeaning(s: string, cs: set<char>) returns (head: string, tail: string)
    ensures s == head + Strip(s, cs) + tail && Only(head, cs) && Only(tail, cs) && Bare(Strip(s, cs), cs)
  {
    hide LStrip, RStrip;
    tail := RStripMeaning(s, cs);
    head := LStripMeaning(RStrip(s, cs), cs);
    assert RStrip(s, cs) == head + Strip(s, cs);
  }

  function JoinEquals(pieces: seq<string>): string
    requires pieces != []
  {
    if |pieces| == 1 then pieces[0]
    else JoinEquals(pieces[..|pieces| - 1]) + "=" + pieces[|pieces| - 1]
  }

  lemma JoinOne(piece: string)
    ensures JoinEquals([piece]) == piece
  {
  }

  predicate AllLack(pieces: seq<string>)
  {
    forall i :: 0 <= i < |pieces| ==> Lacks(pieces[i], '=')
  }

  lemma JoinSnoc(pieces: seq<string>, piece: string)
    requires pieces != []
    ensures JoinEquals(pieces + [piece]) == JoinEquals(pieces) + "=" + piece
  {
    assert (pieces + [piece])[..|pieces|] == pieces;
  }

  lemma JoinExtends(init: seq<string>, last: string, c: char)
    ensures JoinEquals(init + [last + [c]]) == JoinEquals(init + [last]) + [c]
  {
    hide JoinEquals;
    if init == [] {
      assert init + [last] == [last] && init + [last + [c]] == [last + [c]];
      JoinOne(last);
      JoinOne(last + [c]);
    } else {
      JoinSnoc(init, last);
      JoinSnoc(init, last + [c]);
    }
  }

  lemma {:induction false} PiecesLack(s: string)
    ensures AllLack(Split(s))
  {
    if s != "" {
      PiecesLack(s[..|s| - 1]);
    }
  }

  lemma {:induction false} SplitMeaning(s: string)
    ensures JoinEquals(Split(s)) == s
  {
    hide JoinEquals;
    if s == "" {
      JoinOne("");
    } else {
      var pieces, c := Split(s[..|s| - 1]), s[|s| - 1];
      var init, last := pieces[..|pieces| - 1], pieces[|pieces| - 1];
      SplitMeaning(s[..|s| - 1]);
      assert Split(s) == if c == '=' then pieces + [""] else init + [last + [c]];
      hide Split;
      assert pieces == init + [last];
      assert s == JoinEquals(pieces) + [c];
      if c == '=' {
        JoinSnoc(pieces, "");
        assert "=" + "" == [c];
      } else {
        JoinExtends(init, last, c);
      }
    }
  }

  /** The pieces are the text between its equals signs, without the blanks and equals signs at its ends. */
  lemma PiecesMeaning(s: string) returns (head: string, tail: string)
    ensures s == head + JoinEquals(Pieces(s)) + tail && AllLack(Pieces(s))
    ensures Only(head, {' ', '='}) && Only(tail, {' ', '='}) && Bare(JoinEquals(Pieces(s)), {' ', '='})
  {
    hide Strip, Split;
    head, tail := StripMeaning(s, {' ', '='});
    SplitMeaning(Strip(s, {' ', '='}));
    PiecesLack(Strip(s, {' ', '='}));
  }

  lemma {:induction false} MissingKey(pieces: seq<string>, n: nat)
    requires n < |pieces|
    ensures FlagsUpTo(pieces, n).None? <==> exists i :: 0 < i < n && Lacks(pieces[i], ',')
  {
    hide SetItem, Strip, RStrip;
    if n > 0 {
      MissingKey(pieces, n - 1);
      assert EntryAt(pieces, n - 1).None? <==> 0 < n - 1 && Lacks(pieces[n - 1], ',');
      hide EntryAt;
    }
  }

  /** Else a text is refused exactly when a piece between the first and the last has no comma, hence no key. */
  lemma RefusedExactly(s: string)
    requires !Parse(s).Yaml?
    ensures Parse(s).ContextError? <==>
      || (exists i :: 0 <= i < |s| - 1 && s[i] == '=' && s[i + 1] == '=')
      || (exists i :: 0 < i < |Pieces(s)| - 1 && Lacks(Pieces(s)[i], ','))
  {
    DoubleEqualsMeaning(s);
    MissingKey(Pieces(s), |Pieces(s)| - 1);
  }

  predicate Distinct(items: Items)
  {
    forall i, j :: 0 <= i < j < |items| ==> items[i].0 != items[j].0
  }

  /** A known key gets the new value and keeps its place, a new one goes to the end; nothing else changes. */
  lemma {:induction false} SetItemMeaning(items: Items, key: string, value: string)
    requires Distinct(items)
    ensures var r := SetItem(items, key, value);
      && |r| == (if HasKey(items, key) then |items| else |items| + 1)
      && (forall i :: 0 <= i < |items| ==> r[i] == if items[i].0 == key then (key, value) else items[i])
      && (!HasKey(items, key) ==> r[|items|] == (key, value))
  {
    var r := SetItem(items, key, value);
    if !HasKey(items, key) {
      assert r == items + [(key, value)];
    } else {
      var init, last := items[..|items| - 1], items[|items| - 1];
      if last.0 == key {
        assert r == init + [(key, value)];
      } else {
        var i :| 0 <= i < |items| && items[i].0 == key;
        assert init[i].0 == key;
        SetItemMeaning(init, key, value);
        assert r == SetItem(init, key, value) + [last];
      }
    }
    hide SetItem;
  }

  lemma SetItemStaysDistinct(items: Items, key: string, value: string)
    requires Distinct(items)
    ensures Distinct(SetItem(items, key, value))
  {
    hide SetItem;
    SetItemMeaning(items, key, value);
    var r := SetItem(items, key, value);
    assert forall i :: 0 <= i < |items| ==> r[i].0 == items[i].0;
  }

  /** No equals sign, neither blank nor comma at the ends of the key and at the end of the value. */
  predicate Clean(item: (string, string))
  {
    && Lacks(item.0, '=') && Bare(item.0, {' ', ','})
    && Lacks(item.1, '=') && (item.1 != "" ==> item.1[|item.1| - 1] !in {' ', ','})
  }

  lemma StripIsBare(s: string, cs: set<char>, c: char)
    requires Lacks(s, c)
    ensures Bare(Strip(s, cs), cs) && Lacks(Strip(s, cs), c)
  {
    hide Strip;
    var head, tail := StripMeaning(s, cs);
    assert forall j :: 0 <= j < |Strip(s, cs)| ==> Strip(s, cs)[j] == s[|head| + j];
  }

  lemma RStripIsBare(s: string, cs: set<char>, c: char)
    requires Lacks(s, c)
    ensures RStrip(s, cs) != "" ==> RStrip(s, cs)[|RStrip(s, cs)| - 1] !in cs
    ensures Lacks(RStrip(s, cs), c)
  {
    hide RStrip;
    var rest := RStripMeaning(s, cs);
    assert forall j :: 0 <= j < |RStrip(s, cs)| ==> RStrip(s, cs)[j] == s[j];
  }

  lemma EntryIsClean(pieces: seq<string>, i: nat)
    requires i + 1 < |pieces| && AllLack(pieces) && EntryAt(pieces, i).Some?
    ensures Clean(EntryAt(pieces, i).value)
  {
    hide Strip, RStrip, RFind;
    assert Lacks(pieces[i], '=') && Lacks(pieces[i + 1], '=');
    StripIsBare(KeyAt(pieces, i).value, POST_STRIPPERS, '=');
    RStripIsBare(ValueAt(pieces, i), POST_STRIPPERS, '=');
  }

  /** A piece between two equals signs holds a value, a comma and the next key, which has no comma. */
  lemma InnerPiece(pieces: seq<string>, i: nat) returns (rest: string, left: string, right: string)
    requires 0 < i && i + 1 < |pieces| && EntryAt(pieces, i - 1).Some? && EntryAt(pieces, i).Some?
    ensures var value, key := EntryAt(pieces, i - 1).value.1, EntryAt(pieces, i).value.0;
      pieces[i] == (value + rest) + "," + (left + key + right) && Lacks(key, ',')
    ensures Only(rest, {' ', ','}) && Only(left, {' '}) && Only(right, {' '})
  {
    hide Strip, RStrip, RFind;
    var comma := RFind(pieces[i], ',');
    rest, left, right := AroundTheComma(pieces[i], comma);
  }

  lemma AroundTheComma(piece: string, comma: nat) returns (rest: string, left: string, right: string)
    requires comma < |piece| && piece[comma] == ',' && Lacks(piece[comma + 1..], ',')
    ensures var value, key := RStrip(piece[..comma], POST_STRIPPERS), Strip(piece[comma + 1..], POST_STRIPPERS);
      piece == (value + rest) + "," + (left + key + right) && Lacks(key, ',')
    ensures Only(rest, {' ', ','}) && Only(left, {' '}) && Only(right, {' '})
  {
    hide Strip, RStrip;
    var k, v := piece[comma + 1..], piece[..comma];
    rest := RStripMeaning(v, POST_STRIPPERS);
    left, right := NoCommas(k);
    assert piece == v + "," + k;
  }

  lemma NoCommas(k: string) returns (left: string, right: string)
    requires Lacks(k, ',')
    ensures var key := Strip(k, POST_STRIPPERS); k == left + key + right && Lacks(key, ',')
    ensures Only(left, {' '}) && Only(right, {' '})
  {
    hide Strip;
    left, right := StripMeaning(k, POST_STRIPPERS);
    var key := Strip(k, POST_STRIPPERS);
    assert forall j :: 0 <= j < |left| ==> left[j] == k[j];
    assert forall j :: 0 <= j < |key| ==> key[j] == k[|left| + j];
    assert forall j :: 0 <= j < |right| ==> right[j] == k[|left| + |key| + j];
  }

  /** The first piece holds the first key, whatever commas it has, and the last piece holds the last value. */
  lemma OuterPieces(pieces: seq<string>) returns (left: string, right: string, rest: string)
    requires |pieces| >= 2 && EntryAt(pieces, 0).Some? && EntryAt(pieces, |pieces| - 2).Some?
    ensures pieces[0] == left + EntryAt(pieces, 0).value.0 + right
    ensures pieces[|pieces| - 1] == EntryAt(pieces, |pieces| - 2).value.1 + rest
    ensures Only(left, {' ', ','}) && Only(right, {' ', ','}) && Only(rest, {' ', ','})
  {
    hide Strip, RStrip, RFind;
    left, right := StripMeaning(pieces[0], POST_STRIPPERS);
    rest := RStripMeaning(pieces[|pieces| - 1], POST_STRIPPERS);
  }

  predicate SameKey(pieces: seq<string>, i: nat, j: nat)
    requires i + 1 < |pieces| && j + 1 < |pieces|
  {
    EntryAt(pieces, i).Some? && EntryAt(pieces, j).Some? && EntryAt(pieces, i).value.0 == EntryAt(pieces, j).value.0
  }

  predicate IsLastOfItsKey(pieces: seq<string>, i: nat, n: nat)
    requires i < n < |pieces|
  {
    forall j :: i < j < n ==> !SameKey(pieces, i, j)
  }

  lemma {:induction false} FlagsAreClean(pieces: seq<string>, n: nat)
    requires n < |pieces| && AllLack(pieces) && FlagsUpTo(pieces, n).Some?
    ensures var items := FlagsUpTo(pieces, n).value;
      |items| <= n && Distinct(items) && forall e :: e in items ==> Clean(e)
  {
    hide EntryAt, SetItem, Clean;
    if n > 0 {
      var items, r := FlagsUpTo(pieces, n - 1).value, FlagsUpTo(pieces, n).value;
      FlagsAreClean(pieces, n - 1);
      EntryIsClean(pieces, n - 1);
      SetItemMeaning(items, EntryAt(pieces, n - 1).value.0, EntryAt(pieces, n - 1).value.1);
      SetItemStaysDistinct(items, EntryAt(pieces, n - 1).value.0, EntryAt(pieces, n - 1).value.1);
      forall e | e in r
        ensures Clean(e)
      {
        var k :| 0 <= k < |r| && r[k] == e;
        assert k < |items| ==> items[k] in items;
      }
    }
  }

  /** Every entry has its key in the dictionary, and the last entry of a key gives its value. */
  lemma {:induction false} LastEntryWins(pieces: seq<string>, n: nat, i: nat)
    requires i < n < |pieces| && AllLack(pieces) && FlagsUpTo(pieces, n).Some?
    ensures var items := FlagsUpTo(pieces, n).value;
      && EntryAt(pieces, i).Some? && HasKey(items, EntryAt(pieces, i).value.0)
      && (IsLastOfItsKey(pieces, i, n) ==> EntryAt(pieces, i).value in items)
  {
    hide EntryAt, SetItem, HasKey;
    FlagsAreClean(pieces, n - 1);
    if i < n - 1 {
      LastEntryWins(pieces, n - 1, i);
    }
    LaterEntry(pieces, n, FlagsUpTo(pieces, n - 1).value, FlagsUpTo(pieces, n).value, i);
  }

  lemma LaterEntry(pieces: seq<string>, n: nat, items: Items, r: Items, i: nat)
    requires i < n < |pieces| && EntryAt(pieces, n - 1).Some? && EntryAt(pieces, i).Some? && Distinct(items)
    requires r == SetItem(items, EntryAt(pieces, n - 1).value.0, EntryAt(pieces, n - 1).value.1)
    requires i < n - 1 ==> HasKey(items, EntryAt(pieces, i).value.0)
    requires i < n - 1 && IsLastOfItsKey(pieces, i, n - 1) ==> EntryAt(pieces, i).value in items
    ensures HasKey(r, EntryAt(pieces, i).value.0)
    ensures IsLastOfItsKey(pieces, i, n) ==> EntryAt(pieces, i).value in r
  {
    hide EntryAt, SetItem;
    var last := EntryAt(pieces, n - 1).value;
    SetItemMeaning(items, last.0, last.1);
    if HasKey(items, last.0) {
      var k :| 0 <= k < |items| && items[k].0 == last.0;
      assert r[k] == last;
    }
    if i < n - 1 {
      var k :| 0 <= k < |items| && items[k].0 == EntryAt(pieces, i).value.0;
      assert r[k].0 == items[k].0;
      if IsLastOfItsKey(pieces, i, n) {
        assert !SameKey(pieces, i, n - 1);
        assert forall j :: i < j < n - 1 ==> !SameKey(pieces, i, j);
        var m :| 0 <= m < |items| && items[m] == EntryAt(pieces, i).value;
        assert r[m] == items[m];
      }
    }
  }

  /** What is parsed has distinct clean keys and clean values, one for each piece but the last. */
  lemma ParsedMeaning(s: string)
    requires Parse(s).Flags?
    ensures var pieces, items := Pieces(s), Parse(s).items;
      && Distinct(items)
      && (forall e :: e in items ==> Clean(e))
      && (forall i :: 0 <= i < |pieces| - 1 ==> EntryAt(pieces, i).Some? && HasKey(items, EntryAt(pieces, i).value.0))
      && (forall i :: 0 <= i < |pieces| - 1 && IsLastOfItsKey(pieces, i, |pieces| - 1) ==>
            EntryAt(pieces, i).value in items)
  {
    var head, tail := PiecesMeaning(s);
    FlagsAreClean(Pieces(s), |Pieces(s)| - 1);
    forall i | 0 <= i < |Pieces(s)| - 1
      ensures EntryAt(Pieces(s), i).Some? && HasKey(Parse(s).items, EntryAt(Pieces(s), i).value.0)
      ensures IsLastOfItsKey(Pieces(s), i, |Pieces(s)| - 1) ==> EntryAt(Pieces(s), i).value in Parse(s).items
    {
      LastEntryWins(Pieces(s), |Pieces(s)| - 1, i);
    }
  }

  // ----- The parser as it is written -----

  lemma {:induction false} ErrorsStay(pieces: seq<string>, i: nat, n: nat)
    requires i <= n < |pieces| && FlagsUpTo(pieces, i) == None
    ensures FlagsUpTo(pieces, n) == None
  {
    if i < n {
      ErrorsStay(pieces, i, n - 1);
    }
  }

  lemma FlagsStep(pieces: seq<string>, i: nat, items: Items)
    requires i + 1 < |pieces| && FlagsUpTo(pieces, i) == Some(items)
    ensures FlagsUpTo(pieces, i + 1) ==
      if EntryAt(pieces, i).None? then None
      else Some(SetItem(items, EntryAt(pieces, i).value.0, EntryAt(pieces, i).value.1))
  {
  }

  /** One round of the loop: the stripped key and value, or nothing when the embedded key is missing. */
  method ReadEntry(split: seq<string>, i: nat) returns (entry: Option<(string, string)>)
    requires i + 1 < |split|
    ensures entry == EntryAt(split, i)
  {
    hide Strip, RStrip, RFind;
    var limit, current, next := |split|, split[i], split[i + 1];
    var vindex := RFind(next, ',');
    var value := if i == limit - 2 || vindex < 0 then next else next[..vindex];
    var key := current;
    if i > 0 {
      var index := RFind(current, ',');
      if index < 0 {
        return None;
      }
      key := current[index + 1..];
    }
    return Some((Strip(key, POST_STRIPPERS), RStrip(value, POST_STRIPPERS)));
  }

  /** The loop over the pieces; an entry without a key ends it. */
  method ReadEntries(split: seq<string>) returns (flags: Option<Items>)
    requires split != []
    ensures flags == FlagsUpTo(split, |split| - 1)
  {
    hide EntryAt, SetItem;
    var limit := |split|;
    var items: Items := [];
    assert FlagsUpTo(split, 0) == Some([]);
    hide FlagsUpTo;
    for i := 0 to limit - 1
      invariant FlagsUpTo(split, i) == Some(items)
    {
      FlagsStep(split, i, items);
      var entry := ReadEntry(split, i);
      if entry == None {
        ErrorsStay(split, i + 1, limit - 1);
        return None;
      }
      items := SetItem(items, entry.value.0, entry.value.1);
    }
    return Some(items);
  }

  method ConfigFlagsParser(s: string) returns (result: ParseResult)
    ensures result == Parse(s)
  {
    hide Find, HasDoubleEquals, Strip, Split, FlagsUpTo;
    var colon, equals := Find(s, ':'), Find(s, '=');
    if colon > 0 {
      if colon < equals || equals < 0 {
        return Yaml(s);
      }
    }
    if HasDoubleEquals(s) {
      return ContextError;
    }
    var split := Split(Strip(s, {' ', '='}));
    var flags := ReadEntries(split);
    if flags == None {
      return ContextError;
    }
    return Flags(flags.value);
  }

  // ----- Printing -----

  function Print(items: Items): string
  {
    if items == [] then ""
    else
      var last := items[|items| - 1];
      (if |items| == 1 then "" else Print(items[..|items| - 1]) + ", ") + last.0 + "=" + last.1
  }

  predicate GoodKey(k: string)
  {
    k != "" && Lacks(k, '=') && Lacks(k, ',') && Lacks(k, ':') && k[0] != ' ' && k[|k| - 1] != ' '
  }

  predicate GoodValue(v: string)
  {
    Lacks(v, '=') && (v != "" ==> v[|v| - 1] != ' ' && v[|v| - 1] != ',')
  }

  /** Distinct keys, and a last value that is not empty. */
  predicate Printable(items: Items)
  {
    && (forall i :: 0 <= i < |items| ==> GoodKey(items[i].0) && GoodValue(items[i].1))
    && (forall i, j :: 0 <= i < j < |items| ==> items[i].0 != items[j].0)
  }

  predicate EndsWell(items: Items)
  {
    items != [] ==> items[|items| - 1].1 != ""
  }

  // ----- The round trip -----

  /** What the string is cut into. */
  function PrintedPieces(items: Items): (pieces: seq<string>)
    requires items != []
    ensures |pieces| == |items| + 1
  {
    seq(|items| + 1, i requires 0 <= i <= |items| => PrintedPiece(items, i))
  }

  function PrintedPiece(items: Items, i: nat): string
    requires items != [] && i <= |items|
  {
    if i == 0 then items[0].0
    else if i == |items| then items[i - 1].1
    else items[i - 1].1 + ", " + items[i].0
  }

  lemma {:induction false} SplitAppend(a: string, b: string)
    requires Lacks(b, '=')
    ensures var r := Split(a); Split(a + b) == r[..|r| - 1] + [r[|r| - 1] + b]
  {
    if b == "" {
      assert a + b == a;
      var r := Split(a);
      assert r == r[..|r| - 1] + [r[|r| - 1]];
      assert r[|r| - 1] + b == r[|r| - 1];
    } else {
      var init, c := b[..|b| - 1], b[|b| - 1];
      assert b == init + [c];
      SplitAppend(a, init);
      assert (a + b)[..|a + b| - 1] == a + init;
      var r := Split(a);
      assert (r[|r| - 1] + init) + [c] == r[|r| - 1] + b;
    }
  }

  lemma SplitAfterEquals(a: string, b: string)
    requires Lacks(b, '=')
    ensures Split(a + "=" + b) == Split(a) + [b]
  {
    assert (a + "=")[..|a + "="| - 1] == a;
    assert Split(a + "=") == Split(a) + [""];
    SplitAppend(a + "=", b);
    assert "" + b == b;
  }

  lemma PiecesSnoc(items: Items)
    requires |items| > 1
    ensures var n := |items|;
      var before := PrintedPieces(items[..n - 1]);
      before[n - 1] == items[n - 2].1 &&
      PrintedPieces(items) == before[..n - 1] + [items[n - 2].1 + (", " + items[n - 1].0)] + [items[n - 1].1]
  {
    var n := |items|;
    var w, k := items[n - 2].1, items[n - 1].0;
    assert w + ", " + k == w + (", " + k);
    forall i | 0 <= i < n - 1
      ensures PrintedPiece(items[..n - 1], i) == PrintedPiece(items, i)
    {
    }
  }

  lemma {:induction false} PrintIsSplit(items: Items)
    requires items != [] && Printable(items)
    ensures Split(Print(items)) == PrintedPieces(items)
  {
    hide Split, PrintedPieces;
    var n := |items|;
    var k, v := items[n - 1].0, items[n - 1].1;
    if n == 1 {
      OnePair(items);
    } else {
      var init := items[..n - 1];
      PrintIsSplit(init);
      PiecesSnoc(items);
      assert Print(items) == (Print(init) + (", " + k)) + "=" + v;
      SplitAppend(Print(init), ", " + k);
      SplitAfterEquals(Print(init) + (", " + k), v);
    }
  }

  lemma SplitOfOnePiece(s: string)
    requires Lacks(s, '=')
    ensures Split(s) == [s]
  {
    SplitAppend("", s);
    assert "" + s == s && Split("") == [""];
  }

  lemma OnePair(items: Items)
    requires |items| == 1 && Printable(items)
    ensures Split(Print(items)) == PrintedPieces(items)
  {
    hide Split;
    var k, v := items[0].0, items[0].1;
    assert Print(items) == k + "=" + v;
    SplitOfOnePiece(k);
    SplitAfterEquals(k, v);
  }

  lemma {:induction false} NoDoubleAppend(a: string, b: string)
    requires !HasDoubleEquals(a) && Lacks(b, '=')
    ensures !HasDoubleEquals(a + b)
  {
    if b == "" {
      assert a + b == a;
    } else {
      assert b == b[..|b| - 1] + [b[|b| - 1]];
      NoDoubleAppend(a, b[..|b| - 1]);
      assert (a + b)[..|a + b| - 1] == a + b[..|b| - 1];
      assert (a + b)[|a + b| - 1] == b[|b| - 1];
    }
  }

  lemma NoDoubleAfterKey(a: string, k: string, v: string)
    requires !HasDoubleEquals(a) && GoodKey(k) && Lacks(v, '=')
    ensures !HasDoubleEquals(a + k + "=" + v)
  {
    NoDoubleAppend(a, k);
    var s := a + k + "=";
    assert s[..|s| - 1] == a + k;
    assert s[|s| - 2] == k[|k| - 1];
    assert !HasDoubleEquals(s);
    NoDoubleAppend(s, v);
  }

  lemma {:induction false} PrintHasNoDouble(items: Items)
    requires Printable(items)
    ensures !HasDoubleEquals(Print(items))
  {
    if items != [] {
      var last := items[|items| - 1];
      if |items| == 1 {
        assert Print(items) == "" + last.0 + "=" + last.1;
        NoDoubleAfterKey("", last.0, last.1);
      } else {
        PrintHasNoDouble(items[..|items| - 1]);
        NoDoubleAppend(Print(items[..|items| - 1]), ", ");
        NoDoubleAfterKey(Print(items[..|items| - 1]) + ", ", last.0, last.1);
      }
    }
  }

  /** The string starts with the first key and its equals sign. */
  lemma {:induction false} PrintStartsWithKey(items: Items) returns (rest: string)
    requires items != []
    ensures Print(items) == items[0].0 + "=" + rest
  {
    if |items| == 1 {
      rest := items[0].1;
    } else {
      var last := items[|items| - 1];
      var r := PrintStartsWithKey(items[..|items| - 1]);
      rest := r + ", " + last.0 + "=" + last.1;
      assert Print(items) == items[0].0 + "=" + rest;
    }
  }

  lemma PrintIsNotYaml(items: Items)
    requires items != [] && Printable(items)
    ensures !LooksLikeYaml(Print(items))
  {
    var rest := PrintStartsWithKey(items);
    var s, k := Print(items), items[0].0;
    assert s[|k|] == '=';
    assert s[..|k|] == k;
    assert forall i :: 0 <= i < |k| ==> s[i] == k[i];
  }

  lemma StripKeeps(s: string, cs: set<char>)
    requires s != "" ==> s[0] !in cs && s[|s| - 1] !in cs
    ensures Strip(s, cs) == s
  {
  }

  lemma PrintNeedsNoStrip(items: Items)
    requires items != [] && Printable(items) && EndsWell(items)
    ensures Strip(Print(items), {' ', '='}) == Print(items)
  {
    var rest := PrintStartsWithKey(items);
    var s, last := Print(items), items[|items| - 1];
    assert s[0] == items[0].0[0];
    assert s[|s| - 1] == last.1[|last.1| - 1];
    StripKeeps(s, {' ', '='});
  }

  lemma {:induction false} RFindAppend(a: string, b: string, c: char)
    requires Lacks(b, c)
    ensures RFind(a + b, c) == RFind(a, c)
  {
    if b == "" {
      assert a + b == a;
    } else {
      assert (a + b)[..|a + b| - 1] == a + b[..|b| - 1];
      RFindAppend(a, b[..|b| - 1], c);
    }
  }

  lemma LastComma(v: string, k: string)
    requires Lacks(k, ',')
    ensures RFind(v + ", " + k, ',') == |v|
  {
    assert v + ", " + k == (v + ",") + (" " + k);
    RFindAppend(v + ",", " " + k, ',');
  }

  lemma KeyIsRead(items: Items, i: nat)
    requires items != [] && Printable(items) && i < |items|
    ensures KeyAt(PrintedPieces(items), i).Some?
    ensures Strip(KeyAt(PrintedPieces(items), i).value, POST_STRIPPERS) == items[i].0
  {
    var k := items[i].0;
    assert k[0] in k;
    StripKeeps(k, POST_STRIPPERS);
    if i > 0 {
      var v := items[i - 1].1;
      LastComma(v, k);
      var tail := (v + ", " + k)[|v| + 1..];
      assert tail == " " + k;
      assert tail[|tail| - 1] == k[|k| - 1];
      assert RStrip(tail, POST_STRIPPERS) == tail;
      assert tail[1..] == k;
    }
  }

  lemma ValueIsRead(items: Items, i: nat)
    requires items != [] && Printable(items) && i < |items|
    ensures RStrip(ValueAt(PrintedPieces(items), i), POST_STRIPPERS) == items[i].1
  {
    var v := items[i].1;
    if i + 1 < |items| {
      LastComma(v, items[i + 1].0);
      assert (v + ", " + items[i + 1].0)[..|v|] == v;
    }
  }

  lemma {:induction false} EntriesAreRead(items: Items, n: nat)
    requires items != [] && Printable(items) && n <= |items|
    ensures FlagsUpTo(PrintedPieces(items), n) == Some(items[..n])
  {
    hide PrintedPieces, KeyAt, ValueAt, Strip, RStrip;
    if n > 0 {
      EntriesAreRead(items, n - 1);
      KeyIsRead(items, n - 1);
      ValueIsRead(items, n - 1);
      assert items[..n] == items[..n - 1] + [items[n - 1]];
      assert !HasKey(items[..n - 1], items[n - 1].0);
    }
  }

  /** Printing any ordered dictionary with such keys and values and parsing the text gives it back. */
  lemma RoundTrip(items: Items)
    requires Printable(items) && EndsWell(items)
    ensures Parse(Print(items)) == Flags(items)
  {
    if items == [] {
      assert Split("") == [""];
    } else {
      PrintIsNotYaml(items);
      PrintHasNoDouble(items);
      PrintNeedsNoStrip(items);
      PrintIsSplit(items);
      EntriesAreRead(items, |items|);
      assert items[..|items|] == items;
    }
  }

  /** Among these dictionaries, one whose last value is empty is the only kind that does not come back. */
  lemma EmptyLastValueIsLost(items: Items)
    requires Printable(items)
    ensures Parse(Print(items)) == Flags(items) <==> EndsWell(items)
  {
    if EndsWell(items) {
      RoundTrip(items);
    } else {
      PrintIsNotYaml(items);
      PrintHasNoDouble(items);
      var body := StrippedToBody(items);
      PrintIsSplit(items);
      assert Print(items)[..|body|] == body;
      assert Split(Print(items)) == Split(body) + [""];
      if FlagsUpTo(Split(body), |Split(body)| - 1).Some? {
        PiecesLack(body);
        FlagsAreClean(Split(body), |Split(body)| - 1);
      }
    }
  }

  /** The empty last value loses its equals sign. */
  lemma StrippedToBody(items: Items) returns (body: string)
    requires Printable(items) && !EndsWell(items)
    ensures Print(items) == body + "=" && Strip(Print(items), {' ', '='}) == body
  {
    var s, k := Print(items), items[|items| - 1].0;
    body := s[..|s| - 1];
    assert s == body + "=";
    assert body[|body| - 1] == k[|k| - 1];
    assert RStrip(body, {' ', '='}) == body;
    var rest := PrintStartsWithKey(items);
    assert body[0] == items[0].0[0];
  }

  /** What was parsed comes back from its printed form, unless a key is odd or the last value is empty. */
  lemma ParsedComesBack(s: string)
    requires Parse(s).Flags?
    requires forall e :: e in Parse(s).items ==> e.0 != "" && Lacks(e.0, ',') && Lacks(e.0, ':')
    ensures Parse(Print(Parse(s).items)) == Parse(s) <==> EndsWell(Parse(s).items)
  {
    hide Parse;
    var items := Parse(s).items;
    ParsedMeaning(s);
    forall i | 0 <= i < |items|
      ensures GoodKey(items[i].0) && GoodValue(items[i].1)
    {
      assert items[i] in items;
    }
    EmptyLastValueIsLost(items);
  }
}
