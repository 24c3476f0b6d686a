/**
 SQL statements from struct tags: scanning a struct's fields into column lists, and printing the lists
 into the INSERT, SELECT, UPDATE, DELETE and LIST statements.
 */
module Crudl {
  import opened Options
  import opened Strings

  /** A struct field as reflection shows it: its db and json tags, and whether it is a non-nil pointer to a struct. */
  datatype Decl = Decl(db: Option<string>, json: Option<string>, structPointer: bool)

  /** `field` in the source. */
  datatype Column = Column(name: string, index: nat, jsonName: string)

  datatype Mark = Create | Update | Select | List | Pk

  function MarkTag(m: Mark): string {
    match m
    case Create => "create"
    case Update => "update"
    case Select => "select"
    case List => "list"
    case Pk => "pk"
  }

  /** The switch over a tag's text. */
  function Classify(tag: string): (r: Option<Mark>)
    ensures r.Some? ==> MarkTag(r.value) == tag
  {
    if tag == "create" then Some(Create)
    else if tag == "update" then Some(Update)
    else if tag == "select" then Some(Select)
    else if tag == "list" then Some(List)
    else if tag == "pk" then Some(Pk)
    else None
  }

  function Tags(d: Decl): seq<string>
    requires d.db.Some?
    ensures |Tags(d)| > 0
  {
    Split(d.db.value, ',')
  }

  function JsonName(d: Decl): string {
    if d.json.None? || d.json.value == "" then "" else Split(d.json.value, ',')[0]
  }

  /** The column field i becomes, unless it is skipped. */
  function ColumnOf(d: Decl, i: nat): Option<Column> {
    if d.db.None? || Tags(d)[0] == "-" || d.structPointer then None
    else
      var name := if Tags(d)[0] == "" then JsonName(d) else Tags(d)[0];
      if name == "" then None else Some(Column(name, i, JsonName(d)))
  }

  /** The columns of a struct, in field order. */
  function Columns(ds: seq<Decl>): seq<Column> {
    if |ds| == 0 then [] else
      var c := ColumnOf(ds[|ds| - 1], |ds| - 1);
      Columns(ds[..|ds| - 1]) + (if c.Some? then [c.value] else [])
  }

  /** Column c, once for each of the first n tags that is the mark; the first tag is the name. */
  function Marked(c: Column, tags: seq<string>, n: nat, m: Mark): seq<Column>
    requires 1 <= n <= |tags|
  {
    if n == 1 then [] else Marked(c, tags, n - 1, m) + (if Classify(tags[n - 1]) == Some(m) then [c] else [])
  }

  /** The columns a struct marks for one use, in field order. */
  function Chosen(ds: seq<Decl>, m: Mark): seq<Column> {
    if |ds| == 0 then [] else
      var d := ds[|ds| - 1];
      var c := ColumnOf(d, |ds| - 1);
      Chosen(ds[..|ds| - 1], m) + (if c.Some? then Marked(c.value, Tags(d), |Tags(d)|, m) else [])
  }

  /** The validator of each column, later tags and fields overriding earlier ones. */
  function TagValidator(vs: map<string, string>, name: string, tag: string): map<string, string> {
    var parts := Split(tag, '=');
    if |parts| == 2 && parts[0] == "validator" then vs[name := parts[1]] else vs
  }

  function TagValidators(vs: map<string, string>, name: string, tags: seq<string>, n: nat): map<string, string>
    requires 1 <= n <= |tags|
  {
    if n == 1 then vs else
      var before := TagValidators(vs, name, tags, n - 1);
      if Classify(tags[n - 1]).Some? then before else TagValidator(before, name, tags[n - 1])
  }

  function Validators(ds: seq<Decl>): map<string, string> {
    if |ds| == 0 then map[] else
      var d := ds[|ds| - 1];
      var c := ColumnOf(d, |ds| - 1);
      var before := Validators(ds[..|ds| - 1]);
      if c.Some? then TagValidators(before, c.value.name, Tags(d), |Tags(d)|) else before
  }

  function Last(cs: seq<Column>): Option<Column> {
    if |cs| == 0 then None else Some(cs[|cs| - 1])
  }

  // ---- What scanning establishes ----

  /** What precedes the first comma of the json tag, if there is one. */
  ghost predicate JsonNamed(d: Decl, name: string) {
    if d.json.None? then name == "" else FirstPiece(d.json.value, ',', name)
  }

  /**
   `c` is the column of field i: the field has a db tag and is no struct pointer, what precedes the tag's first
   comma is not "-", and is the name, or the name is the json one's if that is empty.
   */
  ghost predicate IsColumn(d: Decl, i: nat, c: Column) {
    && d.db.Some? && !d.structPointer && c.index == i && c.name != "" && JsonNamed(d, c.jsonName)
    && exists first: string :: FirstPiece(d.db.value, ',', first) && first != "-"
         && c.name == (if first == "" then c.jsonName else first)
  }

  ghost predicate IsScanned(ds: seq<Decl>, c: Column) {
    c.index < |ds| && IsColumn(ds[c.index], c.index, c)
  }

  lemma ColumnIsRight(d: Decl, i: nat, c: Column)
    ensures ColumnOf(d, i) == Some(c) <==> IsColumn(d, i, c)
  {
    forall name: string ensures JsonNamed(d, name) <==> name == JsonName(d) {
      JsonNameIsRight(d, name);
    }
    if d.db.Some? {
      forall first: string ensures FirstPiece(d.db.value, ',', first) <==> first == Tags(d)[0] {
        FirstOfSplit(d.db.value, ',', first);
      }
      hide FirstPiece, JsonNamed, Tags, JsonName;
      assert FirstPiece(d.db.value, ',', Tags(d)[0]);
    }
  }

  lemma JsonNameIsRight(d: Decl, name: string)
    ensures JsonNamed(d, name) <==> name == JsonName(d)
  {
    if d.json.Some? {
      FirstOfSplit(d.json.value, ',', name);
    }
  }

  /** Every scanned name is non-empty and free of commas, and belongs to the field its index says. */
  lemma {:induction false} ScannedColumns(ds: seq<Decl>)
    ensures forall j | 0 <= j < |Columns(ds)| ::
      && Columns(ds)[j].name != "" && ',' !in Columns(ds)[j].name
      && Columns(ds)[j].index < |ds| && ColumnOf(ds[Columns(ds)[j].index], Columns(ds)[j].index) == Some(Columns(ds)[j])
    ensures forall p, q | 0 <= p < q < |Columns(ds)| :: Columns(ds)[p].index < Columns(ds)[q].index
  {
    if |ds| > 0 {
      ScannedColumns(ds[..|ds| - 1]);
    }
  }

  lemma {:induction false} MarkedIsThatColumn(c: Column, tags: seq<string>, n: nat, m: Mark)
    requires 1 <= n <= |tags|
    ensures forall j | 0 <= j < |Marked(c, tags, n, m)| :: Marked(c, tags, n, m)[j] == c
    ensures |Marked(c, tags, n, m)| > 0 <==> exists j :: 1 <= j < n && Classify(tags[j]) == Some(m)
  {
    if n > 1 {
      MarkedIsThatColumn(c, tags, n - 1, m);
    }
  }

  lemma MarkTexts(tag: string, m: Mark)
    ensures Classify(tag) == Some(m) <==> tag == MarkTag(m)
  {
    assert "create"[0] == 'c' && "update"[0] == 'u' && "select"[0] == 's' && "list"[0] == 'l' && "pk"[0] == 'p';
  }

  /** Column c was scanned and its field carries the mark. */
  ghost predicate Carries(ds: seq<Decl>, c: Column, m: Mark) {
    IsScanned(ds, c) && HasMark(ds[c.index], m)
  }

  /** One of the words after the first comma of the db tag is the mark's. */
  ghost predicate HasMark(d: Decl, m: Mark) {
    d.db.Some? && MarkTag(m) in Split(d.db.value, ',')[1..]
  }

  /** The switch files a column under the mark for some tag exactly when one of the tags is the mark's text. */
  lemma SwitchFindsText(tags: seq<string>, m: Mark)
    requires |tags| > 0
    ensures (exists j :: 1 <= j < |tags| && Classify(tags[j]) == Some(m)) <==> MarkTag(m) in tags[1..]
  {
    forall j | 1 <= j < |tags| ensures Classify(tags[j]) == Some(m) <==> tags[j] == MarkTag(m) {
      MarkTexts(tags[j], m);
    }
    hide Classify, MarkTag;
    if MarkTag(m) in tags[1..] {
      var l :| 0 <= l < |tags[1..]| && tags[1..][l] == MarkTag(m);
      assert tags[l + 1] == MarkTag(m);
    }
    if j :| 1 <= j < |tags| && Classify(tags[j]) == Some(m) {
      assert tags[1..][j - 1] == MarkTag(m);
    }
  }

  lemma LastField(d: Decl, i: nat, m: Mark, c: Column)
    ensures var last := ColumnOf(d, i);
      (last.Some? && c in Marked(last.value, Tags(d), |Tags(d)|, m)) <==> last == Some(c) && HasMark(d, m)
  {
    var last := ColumnOf(d, i);
    hide Classify, MarkTag;
    if last.Some? {
      MarkedIsThatColumn(last.value, Tags(d), |Tags(d)|, m);
      SwitchFindsText(Tags(d), m);
      var marked := Marked(last.value, Tags(d), |Tags(d)|, m);
      assert |marked| > 0 ==> marked[0] in marked;
    }
  }

  /** A column is chosen for a use exactly when it was scanned and carries the mark. */
  lemma {:induction false} ChosenColumns(ds: seq<Decl>, m: Mark, c: Column)
    ensures c in Chosen(ds, m) <==> Carries(ds, c, m)
  {
    hide Classify, Tags, ColumnOf, Marked, HasMark, IsColumn;
    if |ds| > 0 {
      var pre, i := ds[..|ds| - 1], |ds| - 1;
      ChosenColumns(pre, m, c);
      assert c.index < i ==> pre[c.index] == ds[c.index];
      LastField(ds[i], i, m, c);
      ColumnIsRight(ds[i], i, c);
      assert ColumnOf(ds[i], i) == Some(c) ==> c.index == i by { IndexOfColumn(ds[i], i); }
    }
  }

  lemma IndexOfColumn(d: Decl, i: nat)
    ensures ColumnOf(d, i).Some? ==> d.db.Some? && ColumnOf(d, i).value.index == i
  {
  }

  lemma CountSnoc<T>(xs: seq<T>, x: T, y: T)
    ensures multiset(xs + [x])[y] == multiset(xs)[y] + (if x == y then 1 else 0)
  {
  }

  /** ... and as often as the mark's word is among its field's. */
  lemma {:induction false} MarkedCount(c: Column, tags: seq<string>, n: nat, m: Mark)
    requires 1 <= n <= |tags|
    ensures multiset(Marked(c, tags, n, m))[c] == multiset(tags[1..n])[MarkTag(m)]
  {
    hide Classify, MarkTag;
    if n == 1 {
      assert Marked(c, tags, n, m) == [] && tags[1..n] == [];
    } else {
      var marked, words := Marked(c, tags, n - 1, m), tags[1..n - 1];
      MarkedCount(c, tags, n - 1, m);
      MarkTexts(tags[n - 1], m);
      CountSnoc(marked, c, c);
      CountSnoc(words, tags[n - 1], MarkTag(m));
      assert tags[1..n] == words + [tags[n - 1]];
      assert Marked(c, tags, n, m) == if Classify(tags[n - 1]) == Some(m) then marked + [c] else marked;
    }
  }

  lemma {:induction false} ChosenCount(ds: seq<Decl>, m: Mark, c: Column)
    requires IsScanned(ds, c)
    ensures multiset(Chosen(ds, m))[c] == multiset(Split(ds[c.index].db.value, ',')[1..])[MarkTag(m)]
  {
    hide Classify, MarkTag, Chosen, Split, IsColumn;
    var i := |ds| - 1;
    if c.index == i {
      LastCount(ds, m, c);
    } else {
      assert ds[..i][c.index] == ds[c.index];
      ChosenCount(ds[..i], m, c);
      OthersDoNotCount(ds, m, c);
    }
  }

  lemma LastCount(ds: seq<Decl>, m: Mark, c: Column)
    requires IsScanned(ds, c) && c.index == |ds| - 1
    ensures multiset(Chosen(ds, m))[c] == multiset(Split(ds[c.index].db.value, ',')[1..])[MarkTag(m)]
  {
    var i := c.index;
    ColumnIsRight(ds[i], i, c);
    LastChosen(ds, m);
    ChosenColumns(ds[..i], m, c);
    hide Classify, MarkTag, Chosen, Split, IsColumn, ColumnOf, Marked, Carries;
    var pre, tags := Chosen(ds[..i], m), Tags(ds[i]);
    var marked := Marked(c, tags, |tags|, m);
    MarkedCount(c, tags, |tags|, m);
    assert tags[1..|tags|] == tags[1..];
    assert c !in pre by { NotCarriedBefore(ds, m, c); }
    assert multiset(pre + marked) == multiset(pre) + multiset(marked);
  }

  lemma NotCarriedBefore(ds: seq<Decl>, m: Mark, c: Column)
    requires |ds| > 0 && c.index == |ds| - 1
    ensures !Carries(ds[..|ds| - 1], c, m)
  {
  }

  lemma LastChosen(ds: seq<Decl>, m: Mark)
    requires |ds| > 0 && ColumnOf(ds[|ds| - 1], |ds| - 1).Some?
    ensures var d, i := ds[|ds| - 1], |ds| - 1;
      Chosen(ds, m) == Chosen(ds[..i], m) + Marked(ColumnOf(d, i).value, Tags(d), |Tags(d)|, m)
  {
  }

  lemma OthersDoNotCount(ds: seq<Decl>, m: Mark, c: Column)
    requires |ds| > 0 && c.index < |ds| - 1
    ensures multiset(Chosen(ds, m))[c] == multiset(Chosen(ds[..|ds| - 1], m))[c]
  {
    var d, i := ds[|ds| - 1], |ds| - 1;
    if ColumnOf(d, i).Some? {
      LastChosen(ds, m);
      IndexOfColumn(d, i);
      hide Classify, MarkTag, ColumnOf, Tags, Chosen, Marked;
      var last := ColumnOf(d, i).value;
      var marked := Marked(last, Tags(d), |Tags(d)|, m);
      MarkedIsThatColumn(last, Tags(d), |Tags(d)|, m);
      assert c != last && c !in marked;
      assert multiset(Chosen(ds[..i], m) + marked) == multiset(Chosen(ds[..i], m)) + multiset(marked);
    }
  }

  /** The choice keeps struct order. */
  lemma {:induction false} ChosenInOrder(ds: seq<Decl>, m: Mark)
    ensures forall p, q | 0 <= p < q < |Chosen(ds, m)| :: Chosen(ds, m)[p].index <= Chosen(ds, m)[q].index
    ensures forall p | 0 <= p < |Chosen(ds, m)| :: Chosen(ds, m)[p].index < |ds|
  {
    if |ds| > 0 {
      ChosenInOrder(ds[..|ds| - 1], m);
      var last := ColumnOf(ds[|ds| - 1], |ds| - 1);
      hide Classify, MarkTag;
      if last.Some? {
        MarkedIsThatColumn(last.value, Tags(ds[|ds| - 1]), |Tags(ds[|ds| - 1])|, m);
      }
    }
  }

  /** No two tags of the field are the mark's text. */
  ghost predicate MarkedOnce(d: Decl, m: Mark) {
    d.db.Some? ==> forall j, l | 1 <= j < l < |Tags(d)| :: !(Tags(d)[j] == Tags(d)[l] == MarkTag(m))
  }

  lemma {:induction false} MarkedAtMostOnce(c: Column, tags: seq<string>, n: nat, m: Mark)
    requires 1 <= n <= |tags|
    requires forall j, l | 1 <= j < l < |tags| :: !(tags[j] == tags[l] == MarkTag(m))
    ensures |Marked(c, tags, n, m)| <= 1
  {
    forall j | 1 <= j < |tags| ensures Classify(tags[j]) == Some(m) <==> tags[j] == MarkTag(m) {
      MarkTexts(tags[j], m);
    }
    hide Classify, MarkTag;
    if n > 1 {
      MarkedAtMostOnce(c, tags, n - 1, m);
      MarkedIsThatColumn(c, tags, n - 1, m);
    }
  }

  lemma LastMarkedOnce(d: Decl, i: nat, m: Mark)
    requires MarkedOnce(d, m) && ColumnOf(d, i).Some?
    ensures var marked := Marked(ColumnOf(d, i).value, Tags(d), |Tags(d)|, m);
      |marked| <= 1 && forall p | 0 <= p < |marked| :: marked[p].index == i
  {
    hide Classify, MarkTag;
    IndexOfColumn(d, i);
    MarkedAtMostOnce(ColumnOf(d, i).value, Tags(d), |Tags(d)|, m);
    MarkedIsThatColumn(ColumnOf(d, i).value, Tags(d), |Tags(d)|, m);
  }

  /** A struct whose fields carry a mark at most once each prints no column twice. */
  lemma {:induction false} ChosenWithoutRepeats(ds: seq<Decl>, m: Mark)
    requires forall i | 0 <= i < |ds| :: MarkedOnce(ds[i], m)
    ensures forall p, q | 0 <= p < q < |Chosen(ds, m)| :: Chosen(ds, m)[p].index < Chosen(ds, m)[q].index
  {
    hide Classify, MarkTag, Tags, ColumnOf, Marked, MarkedOnce;
    if |ds| > 0 {
      var pre, i := ds[..|ds| - 1], |ds| - 1;
      ChosenWithoutRepeats(pre, m);
      ChosenInOrder(pre, m);
      if ColumnOf(ds[i], i).Some? {
        LastMarkedOnce(ds[i], i, m);
      }
    }
  }

  /** The columns are those of the fields that have one. */
  lemma {:induction false} ColumnsAreScanned(ds: seq<Decl>, c: Column)
    ensures c in Columns(ds) <==> IsScanned(ds, c)
  {
    hide IsColumn, ColumnOf;
    if |ds| > 0 {
      var pre, i := ds[..|ds| - 1], |ds| - 1;
      ColumnsAreScanned(pre, c);
      assert c.index < i ==> pre[c.index] == ds[c.index];
      ColumnIsRight(ds[i], i, c);
      assert ColumnOf(ds[i], i) == Some(c) ==> c.index == i by { IndexOfColumn(ds[i], i); }
    }
  }

  // ---- Validators ----

  /** `tag` gives the validator `v`. */
  ghost predicate Validates(tag: string, v: string) {
    '=' !in v && tag == "validator=" + v
  }

  lemma TagValidatorIsRight(vs: map<string, string>, name: string, tag: string)
    ensures forall v | Validates(tag, v) :: TagValidator(vs, name, tag) == vs[name := v] && Classify(tag).None?
    ensures (forall v :: !Validates(tag, v)) ==> TagValidator(vs, name, tag) == vs
  {
    var parts := Split(tag, '=');
    forall v | Validates(tag, v) ensures parts == ["validator", v] && Classify(tag).None? {
      assert tag == "validator" + ['='] + v;
      SplitAtFirst("validator", v, '=');
      SplitWithout(v, '=');
      assert tag[0] == 'v';
    }
    if |parts| == 2 && parts[0] == "validator" {
      JoinSplit(tag, '=');
      assert tag == "validator" + ['='] + parts[1];
      assert Validates(tag, parts[1]);
    }
  }

  /** Field i's column is called `name`, and the j-th word of its tag gives the validator `v`. */
  ghost predicate ValidatorAt(ds: seq<Decl>, name: string, i: nat, j: nat, v: string) {
    && i < |ds| && (exists c :: IsColumn(ds[i], i, c) && c.name == name)
    && 1 <= j < |Split(ds[i].db.value, ',')| && Validates(Split(ds[i].db.value, ',')[j], v)
  }

  lemma {:induction false} OtherNamesStay(
      vs: map<string, string>, name: string, tags: seq<string>, n: nat, other: string)
    requires 1 <= n <= |tags| && other != name
    ensures var now := TagValidators(vs, name, tags, n);
      (other in now <==> other in vs) && (other in vs ==> now[other] == vs[other])
  {
    if n > 1 {
      OtherNamesStay(vs, name, tags, n - 1, other);
    }
  }

  lemma {:induction false} NoTagNoValidator(vs: map<string, string>, name: string, tags: seq<string>, n: nat)
    requires 1 <= n <= |tags| && forall j, v | 1 <= j < n :: !Validates(tags[j], v)
    ensures TagValidators(vs, name, tags, n) == vs
  {
    if n > 1 {
      NoTagNoValidator(vs, name, tags, n - 1);
      TagValidatorIsRight(vs, name, tags[n - 1]);
    }
  }

  lemma {:induction false} LastTagWins(
      vs: map<string, string>, name: string, tags: seq<string>, n: nat, j: nat, v: string)
    requires 1 <= j < n <= |tags| && Validates(tags[j], v)
    requires forall l, w | j < l < n :: !Validates(tags[l], w)
    ensures var now := TagValidators(vs, name, tags, n); name in now && now[name] == v
  {
    var before := TagValidators(vs, name, tags, n - 1);
    hide Classify, Validates, TagValidator;
    TagValidatorIsRight(before, name, tags[n - 1]);
    if j < n - 1 {
      LastTagWins(vs, name, tags, n - 1, j, v);
    }
  }

  lemma ValidatorsAtLast(ds: seq<Decl>, name: string, j: nat, v: string)
    requires |ds| > 0
    ensures var d, i := ds[|ds| - 1], |ds| - 1;
      ValidatorAt(ds, name, i, j, v) <==>
        && ColumnOf(d, i).Some? && ColumnOf(d, i).value.name == name
        && 1 <= j < |Tags(d)| && Validates(Tags(d)[j], v)
  {
    var d, i := ds[|ds| - 1], |ds| - 1;
    forall c ensures ColumnOf(d, i) == Some(c) <==> IsColumn(d, i, c) {
      ColumnIsRight(d, i, c);
    }
    IndexOfColumn(d, i);
    hide ColumnOf, IsColumn, Validates;
    if ColumnOf(d, i).Some? {
      assert IsColumn(d, i, ColumnOf(d, i).value);
    }
  }

  lemma ValidatorsOfLast(ds: seq<Decl>)
    requires |ds| > 0
    ensures var d, i, before := ds[|ds| - 1], |ds| - 1, Validators(ds[..|ds| - 1]);
      if ColumnOf(d, i).Some?
      then d.db.Some? && Validators(ds) == TagValidators(before, ColumnOf(d, i).value.name, Tags(d), |Tags(d)|)
      else Validators(ds) == before
  {
    IndexOfColumn(ds[|ds| - 1], |ds| - 1);
  }

  /** The last field's column takes the last validator its own tag gives ... */
  lemma LastFieldWins(ds: seq<Decl>, name: string, i: nat, j: nat, v: string)
    requires i + 1 == |ds| && ValidatorAt(ds, name, i, j, v)
    requires forall l: nat, w: string | ValidatorAt(ds, name, i, l, w) :: l <= j
    ensures name in Validators(ds) && Validators(ds)[name] == v
  {
    var tags, before := Tags(ds[i]), Validators(ds[..i]);
    ValidatorsAtLast(ds, name, j, v);
    ValidatorsOfLast(ds);
    hide ValidatorAt, ColumnOf, Validates, TagValidators, Validators, Tags;
    forall l, w | j < l < |tags| ensures !Validates(tags[l], w) {
      ValidatorsAtLast(ds, name, l, w);
    }
    LastTagWins(before, name, tags, |tags|, j, v);
  }

  /** ... and leaves a name it gives none alone. */
  lemma LastFieldLeaves(ds: seq<Decl>, name: string, i: nat)
    requires i + 1 == |ds| && forall j: nat, v: string :: !ValidatorAt(ds, name, i, j, v)
    ensures var before, now := Validators(ds[..i]), Validators(ds);
      (name in now <==> name in before) && (name in before ==> now[name] == before[name])
  {
    var d := ds[i];
    var last, before := ColumnOf(d, i), Validators(ds[..i]);
    ValidatorsOfLast(ds);
    hide ValidatorAt, ColumnOf, Validates, TagValidators, Validators, Tags;
    if last.Some? {
      if last.value.name == name {
        forall j, v | 1 <= j < |Tags(d)| ensures !Validates(Tags(d)[j], v) {
          ValidatorsAtLast(ds, name, j, v);
        }
        NoTagNoValidator(before, name, Tags(d), |Tags(d)|);
      } else {
        OtherNamesStay(before, last.value.name, Tags(d), |Tags(d)|, name);
      }
    }
  }

  lemma ValidatorsOfPrefix(ds: seq<Decl>, name: string, i: nat, j: nat, v: string)
    requires |ds| > 0
    ensures ValidatorAt(ds[..|ds| - 1], name, i, j, v) <==> i < |ds| - 1 && ValidatorAt(ds, name, i, j, v)
  {
    if i < |ds| - 1 {
      assert ds[..|ds| - 1][i] == ds[i];
    }
  }

  /** The validator of a column name is that of the last tag of the last field that gives it one. */
  lemma {:induction false} LastValidatorWins(ds: seq<Decl>, name: string, i: nat, j: nat, v: string)
    requires ValidatorAt(ds, name, i, j, v)
    requires forall k: nat, l: nat, w: string | ValidatorAt(ds, name, k, l, w) :: k < i || (k == i && l <= j)
    ensures name in Validators(ds) && Validators(ds)[name] == v
  {
    assert i < |ds|;
    hide ValidatorAt, Validators;
    if i == |ds| - 1 {
      LastFieldWins(ds, name, i, j, v);
    } else {
      var pre := ds[..|ds| - 1];
      ValidatorsOfPrefix(ds, name, i, j, v);
      forall k: nat, l: nat, w: string | ValidatorAt(pre, name, k, l, w) ensures k < i || (k == i && l <= j) {
        ValidatorsOfPrefix(ds, name, k, l, w);
      }
      LastValidatorWins(pre, name, i, j, v);
      LastFieldLeaves(ds, name, |ds| - 1);
    }
  }

  /** A name that is given none has none. */
  lemma {:induction false} NoValidator(ds: seq<Decl>, name: string)
    requires forall i: nat, j: nat, v: string :: !ValidatorAt(ds, name, i, j, v)
    ensures name !in Validators(ds)
  {
    if |ds| > 0 {
      var pre := ds[..|ds| - 1];
      LastFieldLeaves(ds, name, |ds| - 1);
      forall k: nat, l: nat, w: string ensures !ValidatorAt(pre, name, k, l, w) {
        ValidatorsOfPrefix(ds, name, k, l, w);
      }
      NoValidator(pre, name);
    }
  }

  // ---- Statements ----

  function Names(cs: seq<Column>): (names: seq<string>)
    ensures |names| == |cs| && forall i | 0 <= i < |cs| :: names[i] == cs[i].name
  {
    if |cs| == 0 then [] else Names(cs[..|cs| - 1]) + [cs[|cs| - 1].name]
  }

  /** Each piece with something before and after it. */
  function Around(before: string, pieces: seq<string>, after: string): (r: seq<string>)
    ensures |r| == |pieces| && forall i | 0 <= i < |pieces| :: r[i] == before + pieces[i] + after
  {
    if |pieces| == 0 then [] else [before + pieces[0] + after] + Around(before, pieces[1..], after)
  }

  function Assignments(names: seq<string>): (r: seq<string>)
    ensures |r| == |names| && forall i | 0 <= i < |names| :: r[i] == "`" + names[i] + "` = :" + names[i]
  {
    if |names| == 0 then [] else
      var last := names[|names| - 1];
      Assignments(names[..|names| - 1]) + ["`" + last + "` = :" + last]
  }

  lemma Regroup(before: string, piece: string, after: string, rest: string)
    ensures before + (piece + (after + "," + before) + rest) + after ==
      before + piece + after + "," + (before + rest + after)
  {
    assert piece + (after + "," + before) + rest == piece + after + "," + (before + rest);
    assert before + (piece + after + "," + (before + rest)) == before + piece + after + "," + (before + rest);
  }

  /** Joining with the closing and opening text in the separator is joining the wrapped pieces. */
  lemma {:induction false} JoinAround(before: string, pieces: seq<string>, after: string)
    requires |pieces| > 0
    ensures before + Join(pieces, after + "," + before) + after == Join(Around(before, pieces, after), ",")
  {
    if |pieces| > 1 {
      JoinAround(before, pieces[1..], after);
      Regroup(before, pieces[0], after, Join(pieces[1..], after + "," + before));
    }
  }

  function InsertStatement(table: string, columns: string, values: string): string {
    "INSERT INTO `" + table + "` (" + columns + ") VALUES (" + values + ")"
  }

  function ReadStatement(table: string, columns: string, pk: string): string {
    "SELECT " + columns + " FROM `" + table + "` WHERE " + pk + " = ?"
  }

  function UpdateStatement(table: string, assignments: string, pk: string): string {
    "UPDATE `" + table + "` SET " + assignments + " WHERE " + pk + " = :" + pk + ";"
  }

  function DeleteStatement(table: string, pk: string): string {
    "DELETE FROM `" + table + "` WHERE " + pk + " = ?;"
  }

  function ListStatement(table: string, columns: string, pk: string): string {
    "SELECT " + columns + " FROM `" + table + "` ORDER by " + pk + " DESC LIMIT ?,?;"
  }

  /** The comma-separated list splits into exactly the pieces. */
  ghost predicate Lists(text: string, pieces: seq<string>) {
    Split(text, ',') == pieces
  }

  ghost predicate CleanNames(names: seq<string>) {
    |names| > 0 && forall i | 0 <= i < |names| :: ',' !in names[i]
  }

  /** A list of columns is one text and no other: their names joined by commas. */
  lemma ColumnsSplitBack(text: string, names: seq<string>)
    requires CleanNames(names)
    ensures Lists(text, names) <==> text == Join(names, ",")
  {
    SplitJoin(names, ',');
    JoinSplit(text, ',');
  }

  lemma PlaceholdersSplitBack(text: string, names: seq<string>)
    requires CleanNames(names)
    ensures Lists(text, Around(":", names, "")) <==> text == ":" + Join(names, ",:")
  {
    hide Split, Join, Around;
    JoinAround(":", names, "");
    assert "" + "," + ":" == ",:";
    assert ":" + Join(names, ",:") + "" == ":" + Join(names, ",:");
    SplitJoin(Around(":", names, ""), ',');
    JoinSplit(text, ',');
  }

  lemma AssignmentsSplitBack(text: string, names: seq<string>)
    requires CleanNames(names)
    ensures Lists(text, Assignments(names)) <==> text == Join(Assignments(names), ",")
  {
    hide Split, Join, Assignments;
    SplitJoin(Assignments(names), ',');
    JoinSplit(text, ',');
  }

  lemma QuotedSplitBack(text: string, names: seq<string>)
    requires CleanNames(names)
    ensures Lists(text, Around("`", names, "`")) <==> text == "`" + Join(names, "`,`") + "`"
  {
    hide Split, Join, Around;
    JoinAround("`", names, "`");
    assert "`" + "," + "`" == "`,`";
    SplitJoin(Around("`", names, "`"), ',');
    JoinSplit(text, ',');
  }

  /** What Register's caller can read off the statements it left. */
  class Config {
    const table: string
    var fields: seq<Column>
    var createFields: seq<Column>
    var updateFields: seq<Column>
    var selectFields: seq<Column>
    var listFields: seq<Column>
    var pk: Option<Column>
    var fieldValidators: map<string, string>
    var createdFields: seq<Column>
    var selectedFields: seq<Column>
    var updatedFields: seq<Column>
    var listedFields: seq<Column>
    var sqlCreate: string
    var sqlRead: string
    var sqlUpdate: string
    var sqlDelete: string
    var sqlList: string

    constructor (table: string)
      ensures this.table == table && Scanned([])
    {
      this.table := table;
      fields, createFields, updateFields, selectFields, listFields := [], [], [], [], [];
      pk, fieldValidators := None, map[];
      createdFields, selectedFields, updatedFields, listedFields := [], [], [], [];
      sqlCreate, sqlRead, sqlUpdate, sqlDelete, sqlList := "", "", "", "", "";
    }

    /** The lists hold what the declarations `ds` say. */
    ghost predicate Scanned(ds: seq<Decl>)
      reads this
    {
      && fields == Columns(ds)
      && createFields == Chosen(ds, Create) && updateFields == Chosen(ds, Update)
      && selectFields == Chosen(ds, Select) && listFields == Chosen(ds, List)
      && pk == Last(Chosen(ds, Pk))
      && fieldValidators == Validators(ds)
    }

    /** The lists hold what `ds` says and, of the next field, its column and its first n tags. */
    ghost predicate ScannedUpTo(ds: seq<Decl>, c: Column, tags: seq<string>, n: nat)
      requires 1 <= n <= |tags|
      reads this
    {
      && fields == Columns(ds) + [c]
      && createFields == Chosen(ds, Create) + Marked(c, tags, n, Create)
      && updateFields == Chosen(ds, Update) + Marked(c, tags, n, Update)
      && selectFields == Chosen(ds, Select) + Marked(c, tags, n, Select)
      && listFields == Chosen(ds, List) + Marked(c, tags, n, List)
      && pk == Last(Chosen(ds, Pk) + Marked(c, tags, n, Pk))
      && fieldValidators == TagValidators(Validators(ds), c.name, tags, n)
    }

    /** The switch of scanStructMySQL: file a column under one of its tags. */
    method FileTag(c: Column, tag: string)
      modifies this`createFields, this`updateFields, this`selectFields, this`listFields, this`pk, this`fieldValidators
      ensures createFields == old(createFields) + (if Classify(tag) == Some(Create) then [c] else [])
      ensures updateFields == old(updateFields) + (if Classify(tag) == Some(Update) then [c] else [])
      ensures selectFields == old(selectFields) + (if Classify(tag) == Some(Select) then [c] else [])
      ensures listFields == old(listFields) + (if Classify(tag) == Some(List) then [c] else [])
      ensures pk == if Classify(tag) == Some(Pk) then Some(c) else old(pk)
      ensures fieldValidators ==
        if Classify(tag).Some? then old(fieldValidators) else TagValidator(old(fieldValidators), c.name, tag)
    {
      if tag == "create" {
        createFields := createFields + [c];
      } else if tag == "update" {
        updateFields := updateFields + [c];
      } else if tag == "select" {
        selectFields := selectFields + [c];
      } else if tag == "list" {
        listFields := listFields + [c];
      } else if tag == "pk" {
        pk := Some(c);
      } else {
        var parts := Split(tag, '=');
        if |parts| == 2 && parts[0] == "validator" {
          fieldValidators := fieldValidators[c.name := parts[1]];
        }
      }
    }

    /** The inner loop of scanStructMySQL, over the tags after the name. */
    method ScanTags(ghost ds: seq<Decl>, c: Column, tags: seq<string>)
      requires Scanned(ds) && |tags| > 0
      modifies this`fields, this`createFields, this`updateFields, this`selectFields, this`listFields
      modifies this`pk, this`fieldValidators
      ensures ScannedUpTo(ds, c, tags, |tags|)
    {
      hide Classify, TagValidator, Columns, Chosen, Validators;
      fields := fields + [c];
      var j := 1;
      while j < |tags|
        invariant 1 <= j <= |tags| && ScannedUpTo(ds, c, tags, j)
      {
        FileTag(c, tags[j]);
        j := j + 1;
      }
    }

    /** scanStructMySQL. */
    method ScanStruct(ds: seq<Decl>)
      requires Scanned([])
      modifies this`fields, this`createFields, this`updateFields, this`selectFields, this`listFields
      modifies this`pk, this`fieldValidators
      ensures Scanned(ds)
    {
      for i := 0 to |ds|
        invariant Scanned(ds[..i])
      {
        assert ds[..i + 1][..i] == ds[..i];
        var d := ds[i];
        if d.db.None? {
          continue;
        }
        var tags := Split(d.db.value, ',');
        if tags[0] == "-" || d.structPointer {
          continue;
        }
        var name, jsonName := tags[0], "";
        if d.json.Some? && d.json.value != "" {
          jsonName := Split(d.json.value, ',')[0];
          if name == "" {
            name := jsonName;
          }
        }
        if name == "" {
          continue;
        }
        ScanTags(ds[..i], Column(name, i, jsonName), tags);
      }
      assert ds[..|ds|] == ds;
    }

    /** The loop of each register method that copies the names out. */
    static method FieldNames(cs: seq<Column>) returns (names: seq<string>)
      ensures names == Names(cs)
    {
      names := [];
      for i := 0 to |cs|
        invariant names == Names(cs[..i])
      {
        names := names + [cs[i].name];
        assert cs[..i + 1][..i] == cs[..i];
      }
      assert cs[..|cs|] == cs;
    }

    method RegisterC(ghost ds: seq<Decl>)
      requires Scanned(ds) && |fields| > 0
      modifies this`createdFields, this`sqlCreate
      ensures Scanned(ds) && createdFields == Printed(ds, Create) && InsertOk(table, createdFields, sqlCreate)
    {
      hide Columns, Chosen, Validators, InsertOk, Names;
      createdFields := if |createFields| == 0 then fields else createFields;
      var names := FieldNames(createdFields);
      sqlCreate := InsertStatement(table, Join(names, ","), ":" + Join(names, ",:"));
      InsertText(table, ds, sqlCreate);
    }

    method RegisterR(ghost ds: seq<Decl>)
      requires Scanned(ds) && |fields| > 0 && pk.Some?
      modifies this`selectedFields, this`sqlRead
      ensures Scanned(ds) && selectedFields == Printed(ds, Select)
      ensures ReadOk(table, selectedFields, pk.value.name, sqlRead)
    {
      hide Columns, Chosen, Validators, ReadOk, Names;
      selectedFields := if |selectFields| == 0 then fields else selectFields;
      var names := FieldNames(selectedFields);
      sqlRead := ReadStatement(table, Join(names, ","), pk.value.name);
      ReadText(table, ds, pk.value.name, sqlRead);
    }

    /** The loop of registerU that turns names into assignments. */
    static method AssignmentNames(fieldNames: seq<string>) returns (names: seq<string>)
      ensures names == Assignments(fieldNames)
    {
      names := [];
      for i := 0 to |fieldNames|
        invariant names == Assignments(fieldNames[..i])
      {
        names := names + ["`" + fieldNames[i] + "` = :" + fieldNames[i]];
        assert fieldNames[..i + 1][..i] == fieldNames[..i];
      }
      assert fieldNames[..|fieldNames|] == fieldNames;
    }

    method RegisterU(ghost ds: seq<Decl>)
      requires Scanned(ds) && |fields| > 0 && pk.Some?
      modifies this`updatedFields, this`sqlUpdate
      ensures Scanned(ds) && updatedFields == Printed(ds, Update)
      ensures UpdateOk(table, updatedFields, pk.value.name, sqlUpdate)
    {
      hide Columns, Chosen, Validators, UpdateOk, Names, Assignments;
      updatedFields := if |updateFields| == 0 then fields else updateFields;
      var fieldNames := FieldNames(updatedFields);
      var names := AssignmentNames(fieldNames);
      sqlUpdate := UpdateStatement(table, Join(names, ","), pk.value.name);
      UpdateText(table, ds, pk.value.name, sqlUpdate);
    }

    method RegisterD(ghost ds: seq<Decl>)
      requires Scanned(ds) && pk.Some?
      modifies this`sqlDelete
      ensures Scanned(ds) && sqlDelete == DeleteStatement(table, pk.value.name)
    {
      sqlDelete := DeleteStatement(table, pk.value.name);
    }

    method RegisterL(ghost ds: seq<Decl>)
      requires Scanned(ds) && |fields| > 0 && pk.Some?
      modifies this`listedFields, this`sqlList
      ensures Scanned(ds) && listedFields == Printed(ds, List) && ListOk(table, listedFields, pk.value.name, sqlList)
    {
      hide Columns, Chosen, Validators, ListOk, Names;
      listedFields := if |listFields| == 0 then fields else listFields;
      var names := FieldNames(listedFields);
      sqlList := ListStatement(table, "`" + Join(names, "`,`") + "`", pk.value.name);
      ListText(table, ds, pk.value.name, sqlList);
    }

    /**
     Register on a struct value: scan it, refuse it when it has no column or no primary key, and print the
     statements asked for, each of whose lists splits back into the columns it was printed from.
     */
    method Register(ds: seq<Decl>, c: bool, r: bool, u: bool, d: bool, l: bool) returns (ok: bool)
      requires Scanned([])
      modifies this
      ensures Scanned(ds)
      ensures ok <==> exists c :: Carries(ds, c, Pk)
      ensures ok <==> |Columns(ds)| > 0 && |Chosen(ds, Pk)| > 0
      ensures ok ==> pk.Some? && Carries(ds, pk.value, Pk)
      ensures ok ==> forall c | Carries(ds, c, Pk) :: c.index <= pk.value.index
      ensures ok && c ==> PrintsFor(ds, Create, createdFields)
      ensures ok && r ==> PrintsFor(ds, Select, selectedFields)
      ensures ok && u ==> PrintsFor(ds, Update, updatedFields)
      ensures ok && l ==> PrintsFor(ds, List, listedFields)
      ensures ok && c ==> createdFields == Printed(ds, Create) && InsertOk(table, createdFields, sqlCreate)
      ensures ok && r ==>
        selectedFields == Printed(ds, Select) && ReadOk(table, selectedFields, pk.value.name, sqlRead)
      ensures ok && u ==>
        updatedFields == Printed(ds, Update) && UpdateOk(table, updatedFields, pk.value.name, sqlUpdate)
      ensures ok && d ==> sqlDelete == DeleteStatement(table, pk.value.name)
      ensures ok && l ==> listedFields == Printed(ds, List) && ListOk(table, listedFields, pk.value.name, sqlList)
    {
      hide Columns, Chosen, Validators, InsertOk, ReadOk, UpdateOk, ListOk, Printed, DeleteStatement, Last;
      hide Carries, PrintsFor;
      ScanStruct(ds);
      PkIsAColumn(ds);
      PkIsTheLast(ds);
      PrintedIsRight(ds, Create);
      PrintedIsRight(ds, Select);
      PrintedIsRight(ds, Update);
      PrintedIsRight(ds, List);
      assert fields == Columns(ds) && pk == Last(Chosen(ds, Pk));
      hide Scanned;
      if |fields| == 0 || pk.None? {
        return false;
      }
      if c {
        RegisterC(ds);
      }
      if r {
        RegisterR(ds);
      }
      if u {
        RegisterU(ds);
      }
      if d {
        RegisterD(ds);
      }
      if l {
        RegisterL(ds);
      }
      return true;
    }
  }

  /** The columns a statement prints: those marked for it, or all when none is. */
  function Printed(ds: seq<Decl>, m: Mark): seq<Column> {
    if |Chosen(ds, m)| == 0 then Columns(ds) else Chosen(ds, m)
  }

  /**
   `cs` is what a statement for the mark is to print: the columns that carry it, each as often as its field does,
   or if there are none, all columns once; in struct order.
   */
  ghost predicate PrintsFor(ds: seq<Decl>, m: Mark, cs: seq<Column>) {
    && (forall p, q | 0 <= p < q < |cs| :: cs[p].index <= cs[q].index)
    && if exists c :: Carries(ds, c, m) then
         && (forall c :: c in cs <==> Carries(ds, c, m))
         && (forall c | Carries(ds, c, m) ::
               multiset(cs)[c] == multiset(Split(ds[c.index].db.value, ',')[1..])[MarkTag(m)])
       else
         && (forall c :: c in cs <==> IsScanned(ds, c))
         && (forall p, q | 0 <= p < q < |cs| :: cs[p].index < cs[q].index)
  }

  lemma ChosenIsRight(ds: seq<Decl>, m: Mark)
    requires |Chosen(ds, m)| > 0
    ensures PrintsFor(ds, m, Chosen(ds, m))
  {
    hide IsColumn, MarkTag, Chosen, Columns, Split;
    ChosenInOrder(ds, m);
    forall c ensures c in Chosen(ds, m) <==> Carries(ds, c, m) {
      ChosenColumns(ds, m, c);
    }
    forall c | Carries(ds, c, m)
      ensures multiset(Chosen(ds, m))[c] == multiset(Split(ds[c.index].db.value, ',')[1..])[MarkTag(m)]
    {
      ChosenCount(ds, m, c);
    }
    hide Carries;
    assert Chosen(ds, m)[0] in Chosen(ds, m);
  }

  lemma AllColumnsAreRight(ds: seq<Decl>, m: Mark)
    requires |Chosen(ds, m)| == 0
    ensures PrintsFor(ds, m, Columns(ds))
  {
    hide Carries, IsScanned, Chosen, Columns, ColumnOf;
    ScannedColumns(ds);
    forall c ensures c in Columns(ds) <==> IsScanned(ds, c) {
      ColumnsAreScanned(ds, c);
    }
    forall c ensures !Carries(ds, c, m) {
      ChosenColumns(ds, m, c);
    }
  }

  lemma PrintedIsRight(ds: seq<Decl>, m: Mark)
    ensures PrintsFor(ds, m, Printed(ds, m))
  {
    hide PrintsFor, Chosen, Columns;
    if |Chosen(ds, m)| == 0 {
      AllColumnsAreRight(ds, m);
    } else {
      ChosenIsRight(ds, m);
    }
  }

  /** An INSERT whose column list and value list split into the columns and their own placeholders, in order. */
  ghost predicate InsertOk(table: string, cs: seq<Column>, sql: string) {
    exists columns: string, values: string :: sql == InsertStatement(table, columns, values)
      && Lists(columns, Names(cs)) && Lists(values, Around(":", Names(cs), ""))
  }

  ghost predicate ReadOk(table: string, cs: seq<Column>, pk: string, sql: string) {
    exists columns: string :: sql == ReadStatement(table, columns, pk) && Lists(columns, Names(cs))
  }

  /** An UPDATE whose list splits into one assignment a column, each naming its own column twice. */
  ghost predicate UpdateOk(table: string, cs: seq<Column>, pk: string, sql: string) {
    exists list: string :: sql == UpdateStatement(table, list, pk) && Lists(list, Assignments(Names(cs)))
  }

  ghost predicate ListOk(table: string, cs: seq<Column>, pk: string, sql: string) {
    exists columns: string :: sql == ListStatement(table, columns, pk) && Lists(columns, Around("`", Names(cs), "`"))
  }

  lemma PkIsAColumn(ds: seq<Decl>)
    ensures Last(Chosen(ds, Pk)).Some? <==> |Chosen(ds, Pk)| > 0
    ensures Last(Chosen(ds, Pk)).Some? ==> Last(Chosen(ds, Pk)).value in Columns(ds)
  {
    var cs := Chosen(ds, Pk);
    if |cs| > 0 {
      ChosenAreColumns(ds, Pk, cs[|cs| - 1]);
    }
  }

  /** The primary key is the last column that carries its mark. */
  lemma PkIsTheLast(ds: seq<Decl>)
    ensures |Chosen(ds, Pk)| > 0 <==> exists c :: Carries(ds, c, Pk)
    ensures |Chosen(ds, Pk)| > 0 ==> |Columns(ds)| > 0
    ensures var last := Last(Chosen(ds, Pk));
      last.Some? ==> Carries(ds, last.value, Pk) && forall c | Carries(ds, c, Pk) :: c.index <= last.value.index
  {
    hide Carries, Chosen, Columns;
    var cs := Chosen(ds, Pk);
    forall c ensures c in cs <==> Carries(ds, c, Pk) {
      ChosenColumns(ds, Pk, c);
    }
    ChosenInOrder(ds, Pk);
    if |cs| > 0 {
      ChosenAreColumns(ds, Pk, cs[0]);
    }
    assert |cs| > 0 ==> cs[0] in cs && cs[|cs| - 1] in cs;
  }

  lemma ChosenAreColumns(ds: seq<Decl>, m: Mark, c: Column)
    requires c in Chosen(ds, m)
    ensures c in Columns(ds)
  {
    ChosenColumns(ds, m, c);
    ColumnsAreScanned(ds, c);
  }

  lemma {:induction false} ColumnIsScanned(ds: seq<Decl>, i: nat)
    requires i < |ds| && ColumnOf(ds[i], i).Some?
    ensures ColumnOf(ds[i], i).value in Columns(ds)
  {
    if i < |ds| - 1 {
      ColumnIsScanned(ds[..|ds| - 1], i);
    }
  }

  /** Whatever a struct with at least one column prints has clean names. */
  lemma PrintedNamesAreClean(ds: seq<Decl>, m: Mark)
    requires |Columns(ds)| > 0
    ensures CleanNames(Names(Printed(ds, m)))
  {
    ScannedColumns(ds);
    forall i | 0 <= i < |Printed(ds, m)| ensures ',' !in Printed(ds, m)[i].name {
      var c := Printed(ds, m)[i];
      if |Chosen(ds, m)| > 0 {
        ChosenAreColumns(ds, m, c);
      }
      assert c in Columns(ds);
    }
  }

  /** The statement registerC prints is the one INSERT whose two lists are the columns and their placeholders. */
  lemma InsertText(table: string, ds: seq<Decl>, sql: string)
    requires |Columns(ds)| > 0
    ensures var names := Names(Printed(ds, Create));
      InsertOk(table, Printed(ds, Create), sql) <==>
        sql == InsertStatement(table, Join(names, ","), ":" + Join(names, ",:"))
  {
    var names := Names(Printed(ds, Create));
    PrintedNamesAreClean(ds, Create);
    hide PrintsFor, Names, Printed, Columns, Join, Around, Lists, InsertStatement, CleanNames;
    forall columns ensures Lists(columns, names) <==> columns == Join(names, ",") {
      ColumnsSplitBack(columns, names);
    }
    forall values ensures Lists(values, Around(":", names, "")) <==> values == ":" + Join(names, ",:") {
      PlaceholdersSplitBack(values, names);
    }
  }

  lemma InsertPrinted(table: string, ds: seq<Decl>, sql: string)
    requires |Columns(ds)| > 0
    ensures var names := Names(Printed(ds, Create));
      InsertOk(table, Printed(ds, Create), sql) <==>
        sql == InsertStatement(table, Join(names, ","), ":" + Join(names, ",:"))
    ensures PrintsFor(ds, Create, Printed(ds, Create))
  {
    hide PrintsFor, Printed, Columns, InsertOk, InsertStatement, Join, Names;
    InsertText(table, ds, sql);
    PrintedIsRight(ds, Create);
  }

  lemma ReadText(table: string, ds: seq<Decl>, pk: string, sql: string)
    requires |Columns(ds)| > 0
    ensures ReadOk(table, Printed(ds, Select), pk, sql) <==>
      sql == ReadStatement(table, Join(Names(Printed(ds, Select)), ","), pk)
  {
    var names := Names(Printed(ds, Select));
    PrintedNamesAreClean(ds, Select);
    hide PrintsFor, Names, Printed, Columns, Join, Lists, ReadStatement, CleanNames;
    forall columns ensures Lists(columns, names) <==> columns == Join(names, ",") {
      ColumnsSplitBack(columns, names);
    }
  }

  lemma ReadPrinted(table: string, ds: seq<Decl>, pk: string, sql: string)
    requires |Columns(ds)| > 0
    ensures ReadOk(table, Printed(ds, Select), pk, sql) <==>
      sql == ReadStatement(table, Join(Names(Printed(ds, Select)), ","), pk)
    ensures PrintsFor(ds, Select, Printed(ds, Select))
  {
    hide PrintsFor, Printed, Columns, ReadOk, ReadStatement, Join, Names;
    ReadText(table, ds, pk, sql);
    PrintedIsRight(ds, Select);
  }

  lemma UpdateText(table: string, ds: seq<Decl>, pk: string, sql: string)
    requires |Columns(ds)| > 0
    ensures UpdateOk(table, Printed(ds, Update), pk, sql) <==>
      sql == UpdateStatement(table, Join(Assignments(Names(Printed(ds, Update))), ","), pk)
  {
    var names := Names(Printed(ds, Update));
    PrintedNamesAreClean(ds, Update);
    hide PrintsFor, Names, Printed, Columns, Join, Lists, UpdateStatement, CleanNames, Assignments;
    forall list ensures Lists(list, Assignments(names)) <==> list == Join(Assignments(names), ",") {
      AssignmentsSplitBack(list, names);
    }
  }

  lemma UpdatePrinted(table: string, ds: seq<Decl>, pk: string, sql: string)
    requires |Columns(ds)| > 0
    ensures UpdateOk(table, Printed(ds, Update), pk, sql) <==>
      sql == UpdateStatement(table, Join(Assignments(Names(Printed(ds, Update))), ","), pk)
    ensures PrintsFor(ds, Update, Printed(ds, Update))
  {
    hide PrintsFor, Printed, Columns, UpdateOk, UpdateStatement, Join, Names;
    UpdateText(table, ds, pk, sql);
    PrintedIsRight(ds, Update);
  }

  lemma ListText(table: string, ds: seq<Decl>, pk: string, sql: string)
    requires |Columns(ds)| > 0
    ensures ListOk(table, Printed(ds, List), pk, sql) <==>
      sql == ListStatement(table, "`" + Join(Names(Printed(ds, List)), "`,`") + "`", pk)
  {
    var names := Names(Printed(ds, List));
    PrintedNamesAreClean(ds, List);
    hide PrintsFor, Names, Printed, Columns, Join, Lists, ListStatement, CleanNames, Around;
    forall columns ensures Lists(columns, Around("`", names, "`")) <==> columns == "`" + Join(names, "`,`") + "`" {
      QuotedSplitBack(columns, names);
    }
  }

  lemma ListPrinted(table: string, ds: seq<Decl>, pk: string, sql: string)
    requires |Columns(ds)| > 0
    ensures ListOk(table, Printed(ds, List), pk, sql) <==>
      sql == ListStatement(table, "`" + Join(Names(Printed(ds, List)), "`,`") + "`", pk)
    ensures PrintsFor(ds, List, Printed(ds, List))
  {
    hide PrintsFor, Printed, Columns, ListOk, ListStatement, Join, Names;
    ListText(table, ds, pk, sql);
    PrintedIsRight(ds, List);
  }
}
