/**
 * The structured "action guide": the nine-category record a guide response
 * carries, its defensive parsing, the order-preserving de-duplicating merge
 * of `_extend_unique`, and the bullet and checkbox normalisation of
 * `_ensure_bullets` and `_ensure_checkboxes`.
 */
module Guide {
  import opened Wrappers
  import opened Text

  /** The nine categories of the guide, in the order of the aggregate. */
  datatype Category =
    | MissionControl | KeyConcepts | Assignments
    | StudyTheory | StudyPractice | StudyAdmin
    | ExamIntel | RiskFollowups | NextMoves

  const Categories: seq<Category> := [
    MissionControl, KeyConcepts, Assignments,
    StudyTheory, StudyPractice, StudyAdmin,
    ExamIntel, RiskFollowups, NextMoves]

  /** The JSON key of each category. */
  function Key(c: Category): string {
    match c
    case MissionControl => "mission_control"
    case KeyConcepts => "key_concepts"
    case Assignments => "assignments"
    case StudyTheory => "study_theory"
    case StudyPractice => "study_practice"
    case StudyAdmin => "study_admin"
    case ExamIntel => "exam_intel"
    case RiskFollowups => "risk_followups"
    case NextMoves => "next_moves"
  }

  /** A decoded guide response: JSON object keys to lists of strings. */
  type GuideData = map<string, seq<string>>

  /** `chunk_data.get(key, [])` */
  function ItemsFor(data: GuideData, c: Category): seq<string> {
    if Key(c) in data then data[Key(c)] else []
  }

  // ---------------------------------------------------------------------
  // _parse_guide_json
  // ---------------------------------------------------------------------

  /** `s.index(c)` searching from `i`: `|s|` stands for the ValueError. */
  function FindFirst(s: string, c: char, i: nat): (r: nat)
    requires i <= |s|
    ensures i <= r <= |s|
    ensures r < |s| ==> s[r] == c
    ensures forall k :: i <= k < r ==> s[k] != c
    decreases |s| - i
  {
    if i == |s| || s[i] == c then i else FindFirst(s, c, i + 1)
  }

  /** `s.rindex(c)` among the first `j` characters: `-1` stands for the ValueError. */
  function FindLast(s: string, c: char, j: nat): (r: int)
    requires j <= |s|
    ensures -1 <= r < j
    ensures r >= 0 ==> s[r] == c
    ensures forall k :: r < k < j ==> s[k] != c
    decreases j
  {
    if j == 0 then -1 else if s[j - 1] == c then j - 1 else FindLast(s, c, j - 1)
  }

  /** `response[response.index('{'):response.rindex('}') + 1]`, or None when
      either search raises. Python's slice is empty when the bounds cross. */
  function BraceSlice(response: string): Option<string> {
    var start := FindFirst(response, '{', 0);
    var last := FindLast(response, '}', |response|);
    if start == |response| || last < 0 then None
    else if start <= last + 1 then Some(response[start..last + 1])
    else Some("")
  }

  /** `_parse_guide_json`: `loads` is `json.loads`, None standing for a
      JSONDecodeError. Every failure path ends in the empty record. */
  function ParseGuideJson(response: string, loads: string -> Option<GuideData>): (r: GuideData)
    ensures response == "" ==> r == map[]
  {
    if response == "" then map[]
    else match loads(response)
      case Some(data) => data
      case None =>
        match BraceSlice(response)
        case None => map[]
        case Some(inner) => loads(inner).GetOr(map[])
  }

  /** The fallback exactly: a non-empty response that does not decode is
      replaced by its first-`{`-to-last-`}` slice, a response whose last `}`
      comes before its first `{` by the empty slice, and a response without
      both braces gives the empty record. */
  lemma ParseGuideJsonFallback(response: string, loads: string -> Option<GuideData>)
    requires response != "" && loads(response).None?
    ensures ('{' !in response || '}' !in response) ==> ParseGuideJson(response, loads) == map[]
    ensures forall a, b ::
      (0 <= a <= b < |response| && response[a] == '{' && response[b] == '}'
       && '{' !in response[..a] && '}' !in response[b + 1..])
      ==> ParseGuideJson(response, loads) == loads(response[a..b + 1]).GetOr(map[])
    ensures forall a, b ::
      (0 <= b < a < |response| && response[a] == '{' && response[b] == '}'
       && '{' !in response[..a] && '}' !in response[b + 1..])
      ==> ParseGuideJson(response, loads) == loads("").GetOr(map[])
  {
    var start := FindFirst(response, '{', 0);
    var last := FindLast(response, '}', |response|);
    if '{' !in response {
      assert start == |response|;
    } else if '}' !in response {
      assert last < 0;
    }
    forall a, b | 0 <= a <= b < |response| && response[a] == '{' && response[b] == '}'
      && '{' !in response[..a] && '}' !in response[b + 1..]
      ensures ParseGuideJson(response, loads) == loads(response[a..b + 1]).GetOr(map[])
    {
      assert start == a;
      assert last == b;
    }
    forall a, b | 0 <= b < a < |response| && response[a] == '{' && response[b] == '}'
      && '{' !in response[..a] && '}' !in response[b + 1..]
      ensures ParseGuideJson(response, loads) == loads("").GetOr(map[])
    {
      assert start == a;
      assert last == b;
      assert BraceSlice(response) == Some("");
    }
  }

  /** A response wrapped in prose or Markdown fencing (text without `{`
      before the object, text without `}` after it) parses to the same
      record as the bare object. */
  lemma FencedGuideParsesAsBare(pre: string, body: string, post: string, loads: string -> Option<GuideData>)
    requires |body| >= 2 && body[0] == '{' && body[|body| - 1] == '}'
    requires '{' !in pre && '}' !in post
    requires loads(pre + body + post).None?
    ensures ParseGuideJson(pre + body + post, loads) == ParseGuideJson(body, loads)
  {
    var s := pre + body + post;
    var a := |pre|;
    var b := |pre| + |body| - 1;
    assert s[a..b + 1] == body;
    assert s[..a] == pre;
    assert s[b + 1..] == post;
    ParseGuideJsonFallback(s, loads);
    if loads(body).None? {
      assert body[0..|body|] == body;
      assert '{' !in body[..0];
      assert body[|body|..] == [];
      ParseGuideJsonFallback(body, loads);
    }
  }

  // ---------------------------------------------------------------------
  // _extend_unique
  // ---------------------------------------------------------------------

  /** What the aggregate stores: stripped, non-empty strings. */
  predicate IsItem(s: string) { s != [] && IsStripped(s) }

  predicate NoDuplicates(xs: seq<string>) {
    forall i, j :: 0 <= i < j < |xs| ==> xs[i] != xs[j]
  }

  /** A category list as the merge keeps it. */
  predicate WellFormedList(xs: seq<string>) {
    NoDuplicates(xs) && forall i :: 0 <= i < |xs| ==> IsItem(xs[i])
  }

  /** One iteration of `_extend_unique`'s loop. */
  function Admit(target: seq<string>, item: string): seq<string> {
    var cleaned := Strip(item);
    if cleaned != "" && cleaned !in target then target + [cleaned] else target
  }

  /** `_extend_unique(target, items)` as a value: the list after the call. */
  function ExtendUniqueSpec(target: seq<string>, items: seq<string>): seq<string>
    decreases |items|
  {
    if items == [] then target
    else Admit(ExtendUniqueSpec(target, items[..|items| - 1]), items[|items| - 1])
  }

  /** The existing entries stay in place, in order: the old list is a prefix. */
  lemma {:induction false} ExtendUniqueKeepsPrefix(target: seq<string>, items: seq<string>)
    ensures |ExtendUniqueSpec(target, items)| >= |target|
    ensures ExtendUniqueSpec(target, items)[..|target|] == target
    decreases |items|
  {
    if items != [] {
      var before := ExtendUniqueSpec(target, items[..|items| - 1]);
      ExtendUniqueKeepsPrefix(target, items[..|items| - 1]);
      assert (before + [Strip(items[|items| - 1])])[..|target|] == before[..|target|];
    }
  }

  /** A well-formed list stays well-formed: the merge never adds a blank
      item, an unstripped item or one already present. */
  lemma {:induction false} ExtendUniqueWellFormed(target: seq<string>, items: seq<string>)
    requires WellFormedList(target)
    ensures WellFormedList(ExtendUniqueSpec(target, items))
    decreases |items|
  {
    if items != [] {
      var before := ExtendUniqueSpec(target, items[..|items| - 1]);
      ExtendUniqueWellFormed(target, items[..|items| - 1]);
      var cleaned := Strip(items[|items| - 1]);
      if cleaned != "" && cleaned !in before {
        var after := before + [cleaned];
        forall i, j | 0 <= i < j < |after| ensures after[i] != after[j] {
          if j == |before| {
            assert after[i] == before[i] && before[i] in before;
          }
        }
      }
    }
  }

  /** Every added entry is the stripped form of some item. */
  lemma {:induction false} ExtendUniqueAddsOnlyItems(target: seq<string>, items: seq<string>)
    ensures forall k :: |target| <= k < |ExtendUniqueSpec(target, items)| ==>
      exists i :: 0 <= i < |items| && ExtendUniqueSpec(target, items)[k] == Strip(items[i])
    decreases |items|
  {
    if items != [] {
      var init := items[..|items| - 1];
      var before := ExtendUniqueSpec(target, init);
      ExtendUniqueAddsOnlyItems(target, init);
      ExtendUniqueKeepsPrefix(target, init);
      var after := ExtendUniqueSpec(target, items);
      forall k | |target| <= k < |after|
        ensures exists i :: 0 <= i < |items| && after[k] == Strip(items[i])
      {
        if k < |before| {
          var i :| 0 <= i < |init| && before[k] == Strip(init[i]);
          assert init[i] == items[i];
          assert after[k] == before[k];
          assert 0 <= i < |items| && after[k] == Strip(items[i]);
        } else {
          var i := |items| - 1;
          assert after == before + [Strip(items[i])];
          assert 0 <= i < |items| && after[k] == Strip(items[i]);
        }
      }
    } else {
      assert ExtendUniqueSpec(target, items) == target;
    }
  }

  /** Nothing is lost: the stripped form of every non-blank item is present
      afterwards (first occurrence kept, later repeats dropped). */
  lemma {:induction false} ExtendUniqueComplete(target: seq<string>, items: seq<string>)
    ensures forall i :: 0 <= i < |items| && Strip(items[i]) != "" ==>
      Strip(items[i]) in ExtendUniqueSpec(target, items)
    decreases |items|
  {
    if items != [] {
      var init := items[..|items| - 1];
      var before := ExtendUniqueSpec(target, init);
      ExtendUniqueComplete(target, init);
      var after := ExtendUniqueSpec(target, items);
      assert forall x | x in before :: x in after;
      forall i | 0 <= i < |items| && Strip(items[i]) != "" ensures Strip(items[i]) in after {
        if i < |init| {
          assert init[i] == items[i];
        }
      }
    }
  }

  // ---------------------------------------------------------------------
  // _ensure_bullets
  // ---------------------------------------------------------------------

  /** The lines a list of items becomes when each item is turned into at
      most one line by `each`, in order. */
  function LinesOf(items: seq<string>, each: string -> seq<string>): seq<string>
    decreases |items|
  {
    if items == [] then [] else LinesOf(items[..|items| - 1], each) + each(items[|items| - 1])
  }

  /** When `each` drops exactly the blank items and turns every other item
      into one line satisfying `shape`, the lines are no more than the
      items, all satisfy `shape`, and there are none exactly when every
      item is blank. */
  lemma {:induction false} LinesOfShape(items: seq<string>, each: string -> seq<string>, shape: string -> bool)
    requires forall x :: |each(x)| <= 1 && (each(x) == [] <==> IsBlank(x))
    requires forall x, l | l in each(x) :: shape(l)
    ensures |LinesOf(items, each)| <= |items|
    ensures forall i :: 0 <= i < |LinesOf(items, each)| ==> shape(LinesOf(items, each)[i])
    ensures LinesOf(items, each) == [] <==> forall i :: 0 <= i < |items| ==> IsBlank(items[i])
    decreases |items|
  {
    if items != [] {
      var init := items[..|items| - 1];
      var last := items[|items| - 1];
      LinesOfShape(init, each, shape);
      var b := LinesOf(items, each);
      assert b == LinesOf(init, each) + each(last);
      forall i | 0 <= i < |b| ensures shape(b[i]) {
        if i >= |LinesOf(init, each)| {
          assert b[i] in each(last);
        }
      }
      AllBlankSnoc(init, last);
      assert init + [last] == items;
    }
  }

  lemma AllBlankSnoc(init: seq<string>, last: string)
    ensures (forall i :: 0 <= i < |init + [last]| ==> IsBlank((init + [last])[i]))
      <==> (forall i :: 0 <= i < |init| ==> IsBlank(init[i])) && IsBlank(last)
  {
    var items := init + [last];
    assert items[|init|] == last;
    assert forall i :: 0 <= i < |init| ==> items[i] == init[i];
  }

  const NoneRecorded: string := "- None recorded."

  /** What one item becomes: nothing when blank, itself when already marked
      with `-` or `>`, otherwise a `- ` bullet. */
  function BulletOf(item: string): seq<string> {
    var line := Strip(item);
    if line == "" then []
    else if StartsWith(line, "-") || StartsWith(line, ">") then [line]
    else ["- " + line]
  }

  function BulletLines(items: seq<string>): seq<string> {
    LinesOf(items, BulletOf)
  }

  /** `_ensure_bullets(items)` */
  function Bullets(items: seq<string>): (r: seq<string>)
    ensures r != []
  {
    if items == [] then [NoneRecorded]
    else
      var lines := BulletLines(items);
      if lines == [] then [NoneRecorded] else lines
  }

  /** `_ensure_bullets`: the loop over the items. */
  method EnsureBullets(items: seq<string>) returns (bullets: seq<string>)
    ensures bullets == Bullets(items)
  {
    if items == [] {
      return [NoneRecorded];
    }
    bullets := [];
    for i := 0 to |items|
      invariant bullets == BulletLines(items[..i])
    {
      var line := Strip(items[i]);
      if line != "" {
        if !StartsWith(line, "-") && !StartsWith(line, ">") {
          line := "- " + line;
        }
        bullets := bullets + [line];
      }
      BulletLinesStep(items, i);
    }
    assert items[..|items|] == items;
    if bullets == [] {
      bullets := [NoneRecorded];
    }
  }

  lemma BulletLinesStep(items: seq<string>, i: nat)
    requires i < |items|
    ensures BulletLines(items[..i + 1]) == BulletLines(items[..i]) + BulletOf(items[i])
  {
    assert items[..i + 1][..i] == items[..i];
  }

  /** A bullet line: non-empty, stripped, opening with `-` or `>`. */
  predicate IsBulletLine(line: string) {
    IsItem(line) && (StartsWith(line, "-") || StartsWith(line, ">"))
  }

  lemma BulletOfShape(item: string)
    ensures |BulletOf(item)| <= 1
    ensures forall l | l in BulletOf(item) :: IsBulletLine(l)
    ensures BulletOf(item) == [] <==> IsBlank(item)
  {
    StripEmptyIffBlank(item);
    var line := Strip(item);
    if line != "" && !(StartsWith(line, "-") || StartsWith(line, ">")) {
      var b := "- " + line;
      assert b[..1] == "-";
      assert b[|b| - 1] == line[|line| - 1];
    }
  }

  /** Only blank items vanish; every other item gives exactly one bullet line. */
  lemma BulletLinesShape(items: seq<string>)
    ensures |BulletLines(items)| <= |items|
    ensures forall i :: 0 <= i < |BulletLines(items)| ==> IsBulletLine(BulletLines(items)[i])
    ensures BulletLines(items) == [] <==> forall i :: 0 <= i < |items| ==> IsBlank(items[i])
  {
    forall x ensures |BulletOf(x)| <= 1 && (BulletOf(x) == [] <==> IsBlank(x))
      && forall l | l in BulletOf(x) :: IsBulletLine(l) {
      BulletOfShape(x);
    }
    LinesOfShape(items, BulletOf, IsBulletLine);
  }

  /** `_ensure_bullets` never returns an empty list and every line is a
      non-empty bullet opening with `-` or `>`. */
  lemma BulletsShape(items: seq<string>)
    ensures |Bullets(items)| >= 1
    ensures forall i :: 0 <= i < |Bullets(items)| ==> IsBulletLine(Bullets(items)[i])
  {
    BulletLinesShape(items);
    assert IsBulletLine(NoneRecorded) by {
      assert NoneRecorded[..1] == "-";
    }
  }

  lemma BulletLineFixed(line: string)
    requires IsBulletLine(line)
    ensures BulletOf(line) == [line]
  {
  }

  /** Bullet lines are a fixpoint: normalising them again changes nothing. */
  lemma {:induction false} BulletLinesFixpoint(lines: seq<string>)
    requires forall i :: 0 <= i < |lines| ==> IsBulletLine(lines[i])
    ensures BulletLines(lines) == lines
    decreases |lines|
  {
    if lines != [] {
      var init := lines[..|lines| - 1];
      BulletLinesFixpoint(init);
      BulletLineFixed(lines[|lines| - 1]);
      assert init + [lines[|lines| - 1]] == lines;
    }
  }

  /** `_ensure_bullets` is idempotent. */
  lemma BulletsIdempotent(items: seq<string>)
    ensures Bullets(Bullets(items)) == Bullets(items)
  {
    BulletsShape(items);
    BulletLinesFixpoint(Bullets(items));
  }

  // ---------------------------------------------------------------------
  // _ensure_checkboxes
  // ---------------------------------------------------------------------

  const NoneRecordedBox: string := "- [ ] None recorded."

  /** What one item becomes: nothing when blank, itself when it already
      opens with `- [`, otherwise an unchecked box around the text with its
      leading dashes removed. */
  function CheckboxOf(item: string): seq<string> {
    var line := Strip(item);
    if line == "" then []
    else if StartsWith(line, "- [") then [line]
    else ["- [ ] " + Strip(LStripChar(line, '-'))]
  }

  function CheckboxLines(items: seq<string>): seq<string> {
    LinesOf(items, CheckboxOf)
  }

  /** `_ensure_checkboxes(items)` */
  function Checkboxes(items: seq<string>): (r: seq<string>)
    ensures r != []
  {
    if items == [] then [NoneRecordedBox]
    else
      var lines := CheckboxLines(items);
      if lines == [] then [NoneRecordedBox] else lines
  }

  /** `_ensure_checkboxes`: the loop over the items. */
  method EnsureCheckboxes(items: seq<string>) returns (boxes: seq<string>)
    ensures boxes == Checkboxes(items)
  {
    if items == [] {
      return [NoneRecordedBox];
    }
    boxes := [];
    for i := 0 to |items|
      invariant boxes == CheckboxLines(items[..i])
    {
      var line := Strip(items[i]);
      if line != "" {
        if !StartsWith(line, "- [") {
          line := "- [ ] " + Strip(LStripChar(line, '-'));
        }
        boxes := boxes + [line];
      }
      CheckboxLinesStep(items, i);
    }
    assert items[..|items|] == items;
    if boxes == [] {
      boxes := [NoneRecordedBox];
    }
  }

  lemma CheckboxLinesStep(items: seq<string>, i: nat)
    requires i < |items|
    ensures CheckboxLines(items[..i + 1]) == CheckboxLines(items[..i]) + CheckboxOf(items[i])
  {
    assert items[..i + 1][..i] == items[..i];
  }

  /** A checkbox line opens with `- [`. */
  predicate IsCheckboxLine(line: string) {
    StartsWith(line, "- [")
  }

  lemma CheckboxOfShape(item: string)
    ensures |CheckboxOf(item)| <= 1
    ensures forall l | l in CheckboxOf(item) :: IsCheckboxLine(l)
    ensures CheckboxOf(item) == [] <==> IsBlank(item)
  {
    StripEmptyIffBlank(item);
    var line := Strip(item);
    if line != "" && !StartsWith(line, "- [") {
      OpenBoxIsCheckbox(Strip(LStripChar(line, '-')));
    }
  }

  lemma OpenBoxIsCheckbox(text: string)
    ensures IsCheckboxLine("- [ ] " + text)
  {
    assert ("- [ ] " + text)[..3] == "- [";
  }

  /** Only blank items vanish; every other item gives exactly one checkbox. */
  lemma CheckboxLinesShape(items: seq<string>)
    ensures |CheckboxLines(items)| <= |items|
    ensures forall i :: 0 <= i < |CheckboxLines(items)| ==> IsCheckboxLine(CheckboxLines(items)[i])
    ensures CheckboxLines(items) == [] <==> forall i :: 0 <= i < |items| ==> IsBlank(items[i])
  {
    forall x ensures |CheckboxOf(x)| <= 1 && (CheckboxOf(x) == [] <==> IsBlank(x))
      && forall l | l in CheckboxOf(x) :: IsCheckboxLine(l) {
      CheckboxOfShape(x);
    }
    LinesOfShape(items, CheckboxOf, IsCheckboxLine);
  }

  /** `_ensure_checkboxes` never returns an empty list and every line opens
      with `- [`. */
  lemma CheckboxesShape(items: seq<string>)
    ensures |Checkboxes(items)| >= 1
    ensures forall i :: 0 <= i < |Checkboxes(items)| ==> IsCheckboxLine(Checkboxes(items)[i])
  {
    CheckboxLinesShape(items);
    OpenBoxIsCheckbox("None recorded.");
  }

  /** `_ensure_checkboxes` on one item that makes one line gives that line. */
  lemma SingleItemBoxes(item: string, line: seq<string>)
    requires CheckboxOf(item) == line && |line| == 1
    ensures Checkboxes([item]) == line
  {
    var items: seq<string> := [item];
    assert items[..|items| - 1] == [];
    assert LinesOf(items, CheckboxOf) == LinesOf([], CheckboxOf) + CheckboxOf(item);
    assert CheckboxLines(items) == line;
  }

  /** An item of dashes only becomes the box `- [ ] `, trailing space kept. */
  lemma DashOnlyBox()
    ensures CheckboxOf("-") == ["- [ ] "]
  {
    var dash: string := "-";
    assert !IsSpace(dash[0]);
    assert Strip(dash) == dash;
    assert !StartsWith(dash, "- [");
    assert dash[1..] == [];
    assert LStripChar(dash, '-') == [];
    assert Strip([]) == [];
    assert "- [ ] " + [] == "- [ ] ";
  }

  /** A second pass strips that box's trailing space and then keeps it. */
  lemma BoxRestripped()
    ensures CheckboxOf("- [ ] ") == ["- [ ]"]
  {
    var box: string := "- [ ] ";
    var bare: string := "- [ ]";
    assert IsSpace(box[|box| - 1]);
    assert box[..|box| - 1] == bare;
    assert IsStripped(bare);
    assert bare[..3] == "- [";
  }

  /** `_ensure_checkboxes` is not idempotent: applied twice to an item of
      dashes only, it gives a different list than applied once. */
  lemma CheckboxesNotIdempotent()
    ensures Checkboxes(["-"]) == ["- [ ] "]
    ensures Checkboxes(Checkboxes(["-"])) == ["- [ ]"]
    ensures Checkboxes(["-"]) != Checkboxes(Checkboxes(["-"]))
  {
    DashOnlyBox();
    BoxRestripped();
    SingleItemBoxes("-", ["- [ ] "]);
    SingleItemBoxes("- [ ] ", ["- [ ]"]);
    assert "- [ ] " != "- [ ]" by {
      assert |"- [ ] "| == 6;
    }
  }

  // ---------------------------------------------------------------------
  // The aggregate of `_generate_guide`
  // ---------------------------------------------------------------------

  /** `_extend_unique(target, items)`: the loop, with the in-place append
      written as the returned list. */
  method ExtendUnique(target: seq<string>, items: seq<string>) returns (extended: seq<string>)
    ensures extended == ExtendUniqueSpec(target, items)
  {
    extended := target;
    if items == [] {
      return;
    }
    for i := 0 to |items|
      invariant extended == ExtendUniqueSpec(target, items[..i])
    {
      var cleaned := Strip(items[i]);
      if cleaned != "" && cleaned !in extended {
        extended := extended + [cleaned];
      }
      assert items[..i + 1][..i] == items[..i];
    }
    assert items[..|items|] == items;
  }

  /** The ordered dictionary of category lists. */
  type Aggregate = map<Category, seq<string>>

  const EmptyAggregate: Aggregate := map[
    MissionControl := [], KeyConcepts := [], Assignments := [],
    StudyTheory := [], StudyPractice := [], StudyAdmin := [],
    ExamIntel := [], RiskFollowups := [], NextMoves := []]

  /** Every category present, each list well-formed. */
  predicate WellFormedAggregate(agg: Aggregate) {
    forall c: Category :: c in agg && WellFormedList(agg[c])
  }

  /** Where a category sits in the aggregate's key order. */
  function Position(c: Category): (i: nat)
    ensures i < |Categories| && Categories[i] == c
  {
    match c
    case MissionControl => 0
    case KeyConcepts => 1
    case Assignments => 2
    case StudyTheory => 3
    case StudyPractice => 4
    case StudyAdmin => 5
    case ExamIntel => 6
    case RiskFollowups => 7
    case NextMoves => 8
  }

  lemma EmptyAggregateWellFormed()
    ensures WellFormedAggregate(EmptyAggregate)
  {
    forall c: Category ensures c in EmptyAggregate && EmptyAggregate[c] == [] {
      match c
      case MissionControl =>
      case KeyConcepts =>
      case Assignments =>
      case StudyTheory =>
      case StudyPractice =>
      case StudyAdmin =>
      case ExamIntel =>
      case RiskFollowups =>
      case NextMoves =>
    }
  }

  /** One chunk's record merged into the aggregate, key by key. */
  function MergeSpec(agg: Aggregate, data: GuideData): (r: Aggregate)
    ensures r.Keys == agg.Keys
  {
    map c | c in agg :: ExtendUniqueSpec(agg[c], ItemsFor(data, c))
  }

  /** `for key in aggregate: _extend_unique(aggregate[key], chunk_data.get(key, []))` */
  method MergeChunk(agg: Aggregate, data: GuideData) returns (merged: Aggregate)
    requires forall c: Category :: c in agg
    ensures merged == MergeSpec(agg, data)
  {
    merged := agg;
    for i := 0 to |Categories|
      invariant forall c: Category :: c in merged
      invariant forall c: Category :: MergedUpTo(agg, data, i, c, merged)
    {
      var key := Categories[i];
      var items := if Key(key) in data then data[Key(key)] else [];
      var extended := ExtendUnique(merged[key], items);
      ghost var before := merged;
      merged := merged[key := extended];
      MergedStep(agg, data, i, before, merged);
    }
    forall c: Category ensures merged[c] == ExtendUniqueSpec(agg[c], ItemsFor(data, c)) {
      assert MergedUpTo(agg, data, |Categories|, c, merged);
    }
    assert merged.Keys == agg.Keys;
  }

  /** The loop invariant of `MergeChunk` for one category: merged once its
      turn has come, untouched before. */
  predicate MergedUpTo(agg: Aggregate, data: GuideData, i: nat, c: Category, merged: Aggregate)
    requires c in agg && c in merged
  {
    merged[c] == if Position(c) < i then ExtendUniqueSpec(agg[c], ItemsFor(data, c)) else agg[c]
  }

  /** One turn of the `MergeChunk` loop: merging category `i` moves the
      invariant from `i` to `i + 1`. */
  lemma MergedStep(agg: Aggregate, data: GuideData, i: nat, before: Aggregate, after: Aggregate)
    requires i < |Categories|
    requires forall c: Category :: c in agg && c in before
    requires forall c: Category :: MergedUpTo(agg, data, i, c, before)
    requires after == before[Categories[i] := ExtendUniqueSpec(before[Categories[i]], ItemsFor(data, Categories[i]))]
    ensures forall c: Category :: c in after && MergedUpTo(agg, data, i + 1, c, after)
  {
    forall c: Category ensures c in after && MergedUpTo(agg, data, i + 1, c, after) {
      assert MergedUpTo(agg, data, i, c, before);
      if c == Categories[i] {
        assert Position(c) == i;
      } else {
        assert Position(c) != i;
      }
    }
  }

  /** Merging keeps the aggregate well-formed. */
  lemma MergeWellFormed(agg: Aggregate, data: GuideData)
    requires WellFormedAggregate(agg)
    ensures WellFormedAggregate(MergeSpec(agg, data))
  {
    forall c: Category ensures WellFormedList(MergeSpec(agg, data)[c]) {
      ExtendUniqueWellFormed(agg[c], ItemsFor(data, c));
    }
  }

  /** The placeholder an empty assignments list receives. */
  const NoAssignments: string := "- [ ] Confirm: no assignments announced this session."
  /** The placeholder an empty mission-control list receives. */
  const NoMissionSummary: string := "No additional summary beyond structured notes."
  /** How many next moves the guide keeps. */
  const MaxNextMoves: nat := 3

  /** The placeholders for empty assignments and mission control, and the
      cut of the next moves to the first three. */
  function FinalizeSpec(agg: Aggregate): Aggregate
    requires forall c: Category :: c in agg
  {
    var withAssignments := if agg[Assignments] == [] then agg[Assignments := [NoAssignments]] else agg;
    var withMission := if withAssignments[MissionControl] == [] then withAssignments[MissionControl := [NoMissionSummary]] else withAssignments;
    var moves := withMission[NextMoves];
    withMission[NextMoves := if |moves| <= MaxNextMoves then moves else moves[..MaxNextMoves]]
  }

  /** The steps of `_generate_guide` between the merge loop and rendering. */
  method FinalizeAggregate(agg: Aggregate) returns (finalized: Aggregate)
    requires forall c: Category :: c in agg
    ensures finalized == FinalizeSpec(agg)
  {
    finalized := agg;
    if finalized[Assignments] == [] {
      finalized := finalized[Assignments := [NoAssignments]];
    }
    if finalized[MissionControl] == [] {
      finalized := finalized[MissionControl := [NoMissionSummary]];
    }
    var moves := finalized[NextMoves];
    finalized := finalized[NextMoves := if |moves| <= MaxNextMoves then moves else moves[..MaxNextMoves]];
  }

  lemma PlaceholdersAreItems()
    ensures IsItem(NoAssignments) && IsItem(NoMissionSummary)
  {
    NoAssignmentsIsItem();
    NoMissionSummaryIsItem();
  }

  lemma NoAssignmentsIsItem()
    ensures IsItem(NoAssignments)
  {
    var front: string := "- [ ] Confirm: no assignments ";
    var back: string := "announced this session.";
    assert NoAssignments == front + back;
    assert NoAssignments[0] == front[0];
    assert NoAssignments[|NoAssignments| - 1] == back[|back| - 1];
  }

  lemma NoMissionSummaryIsItem()
    ensures IsItem(NoMissionSummary)
  {
    var front: string := "No additional summary ";
    var back: string := "beyond structured notes.";
    assert NoMissionSummary == front + back;
    assert NoMissionSummary[0] == front[0];
    assert NoMissionSummary[|NoMissionSummary| - 1] == back[|back| - 1];
  }

  /** After finalisation the assignments and mission-control lists are never
      empty, the next moves are the first three (or fewer) merged ones, every
      other list is untouched and the aggregate stays well-formed. */
  lemma FinalizeGuarantees(agg: Aggregate)
    requires WellFormedAggregate(agg)
    ensures WellFormedAggregate(FinalizeSpec(agg))
    ensures FinalizeSpec(agg)[Assignments] == (if agg[Assignments] == [] then [NoAssignments] else agg[Assignments])
    ensures FinalizeSpec(agg)[MissionControl] == (if agg[MissionControl] == [] then [NoMissionSummary] else agg[MissionControl])
    ensures |FinalizeSpec(agg)[NextMoves]| <= MaxNextMoves
    ensures FinalizeSpec(agg)[NextMoves] == agg[NextMoves][..|FinalizeSpec(agg)[NextMoves]|]
    ensures |agg[NextMoves]| >= MaxNextMoves ==> |FinalizeSpec(agg)[NextMoves]| == MaxNextMoves
    ensures forall c: Category :: c !in {Assignments, MissionControl, NextMoves} ==> FinalizeSpec(agg)[c] == agg[c]
  {
    var f := FinalizeSpec(agg);
    PlaceholdersAreItems();
    forall c: Category ensures WellFormedList(f[c]) {
      if c == NextMoves && |agg[NextMoves]| > MaxNextMoves {
        var m := agg[NextMoves];
        assert forall i :: 0 <= i < MaxNextMoves ==> f[c][i] == m[i];
      }
    }
  }

  // ---------------------------------------------------------------------
  // Rendering the guide
  // ---------------------------------------------------------------------

  /** The ten headings of the guide, in order; the blank line before each
      but the first is part of the heading string. */
  const GuideHeadings: seq<string> := [
    "## Mission Control",
    "\n## Key Concepts & Definitions",
    "\n## Assignments, Projects, Exams",
    "\n## Study & Revision Checklist",
    "### Theory",
    "\n### Practice",
    "\n### Admin",
    "\n## Exam Intel",
    "\n## Risk & Follow-ups",
    "\n## Next Moves"]

  /** The mission-control paragraph. */
  function MissionText(agg: Aggregate): string
    requires MissionControl in agg
  {
    Strip(Join(agg[MissionControl], "\n"))
  }

  /** The lines under each heading; the revision-checklist heading has none
      of its own, only its three sub-sections. */
  function GuideSections(agg: Aggregate): (r: seq<seq<string>>)
    requires forall c: Category :: c in agg
    ensures |r| == |GuideHeadings|
  {
    [[MissionText(agg)],
     Bullets(agg[KeyConcepts]),
     Checkboxes(agg[Assignments]),
     [],
     Checkboxes(agg[StudyTheory]),
     Checkboxes(agg[StudyPractice]),
     Checkboxes(agg[StudyAdmin]),
     Bullets(agg[ExamIntel]),
     Bullets(agg[RiskFollowups]),
     Bullets(agg[NextMoves])]
  }

  /** Each heading followed by its section (built from the back, the way
      lines are appended). */
  function Interleave(heads: seq<string>, sections: seq<seq<string>>): seq<string>
    requires |heads| == |sections|
    decreases |heads|
  {
    if heads == [] then []
    else if |heads| == 1 then [heads[0]] + sections[0]
    else
      var n := |heads| - 1;
      Interleave(heads[..n], sections[..n]) + [heads[n]] + sections[n]
  }

  /** The lines of the guide, in the order they are appended. */
  function GuideLines(agg: Aggregate): seq<string>
    requires forall c: Category :: c in agg
  {
    ["## Mission Control"] + [MissionText(agg)]
    + ["\n## Key Concepts & Definitions"] + Bullets(agg[KeyConcepts])
    + ["\n## Assignments, Projects, Exams"] + Checkboxes(agg[Assignments])
    + ["\n## Study & Revision Checklist"]
    + ["### Theory"] + Checkboxes(agg[StudyTheory])
    + ["\n### Practice"] + Checkboxes(agg[StudyPractice])
    + ["\n### Admin"] + Checkboxes(agg[StudyAdmin])
    + ["\n## Exam Intel"] + Bullets(agg[ExamIntel])
    + ["\n## Risk & Follow-ups"] + Bullets(agg[RiskFollowups])
    + ["\n## Next Moves"] + Bullets(agg[NextMoves])
  }

  /** The rendered guide body. */
  function GuideText(agg: Aggregate): string
    requires forall c: Category :: c in agg
  {
    Join(GuideLines(agg), "\n")
  }

  /** `_generate_guide`'s rendering: the lines appended in order, joined by
      newlines. */
  method RenderGuide(agg: Aggregate) returns (text: string)
    requires forall c: Category :: c in agg
    ensures text == GuideText(agg)
  {
    var lines: seq<string> := ["## Mission Control"];
    lines := lines + [Strip(Join(agg[MissionControl], "\n"))];
    lines := lines + ["\n## Key Concepts & Definitions"];
    var keyConcepts := EnsureBullets(agg[KeyConcepts]);
    lines := lines + keyConcepts;
    lines := lines + ["\n## Assignments, Projects, Exams"];
    var assignments := EnsureCheckboxes(agg[Assignments]);
    lines := lines + assignments;
    lines := lines + ["\n## Study & Revision Checklist"];
    lines := lines + ["### Theory"];
    var theory := EnsureCheckboxes(agg[StudyTheory]);
    lines := lines + theory;
    lines := lines + ["\n### Practice"];
    var practice := EnsureCheckboxes(agg[StudyPractice]);
    lines := lines + practice;
    lines := lines + ["\n### Admin"];
    var admin := EnsureCheckboxes(agg[StudyAdmin]);
    lines := lines + admin;
    lines := lines + ["\n## Exam Intel"];
    var exam := EnsureBullets(agg[ExamIntel]);
    lines := lines + exam;
    lines := lines + ["\n## Risk & Follow-ups"];
    var risks := EnsureBullets(agg[RiskFollowups]);
    lines := lines + risks;
    lines := lines + ["\n## Next Moves"];
    var moves := EnsureBullets(agg[NextMoves]);
    lines := lines + moves;
    text := Join(lines, "\n");
  }

  lemma InterleavePrefixStep(hs: seq<string>, ss: seq<seq<string>>, j: nat)
    requires |hs| == |ss| && j < |hs|
    ensures Interleave(hs[..j + 1], ss[..j + 1]) == Interleave(hs[..j], ss[..j]) + [hs[j]] + ss[j]
  {
    assert hs[..j + 1][..j] == hs[..j];
    assert ss[..j + 1][..j] == ss[..j];
    if j == 0 {
      assert Interleave(hs[..0], ss[..0]) == [];
    }
  }

  lemma PrefixOfAppend<T>(a: seq<T>, b: seq<T>, n: nat)
    requires n <= |b|
    ensures (a + b)[..|a| + n] == a + b[..n]
    ensures n == |b| ==> b[..n] == b
  {
  }

  /** Interleaving two runs of headings is interleaving each. */
  lemma {:induction false} InterleaveAppend(h1: seq<string>, s1: seq<seq<string>>, h2: seq<string>, s2: seq<seq<string>>)
    requires |h1| == |s1| && |h2| == |s2|
    ensures Interleave(h1 + h2, s1 + s2) == Interleave(h1, s1) + Interleave(h2, s2)
    decreases |h2|
  {
    if h2 == [] {
      assert h1 + h2 == h1 && s1 + s2 == s1;
    } else {
      var n := |h2| - 1;
      InterleaveAppend(h1, s1, h2[..n], s2[..n]);
      PrefixOfAppend(h1, h2, n);
      PrefixOfAppend(s1, s2, n);
      PrefixOfAppend(h1, h2, n + 1);
      PrefixOfAppend(s1, s2, n + 1);
      InterleavePrefixStep(h1 + h2, s1 + s2, |h1| + n);
      InterleavePrefixStep(h2, s2, n);
    }
  }

  /** The guide, seen from any one heading: the sections before it, the
      heading, its own section, the sections after it. */
  lemma InterleaveSplit(hs: seq<string>, ss: seq<seq<string>>, k: nat)
    requires |hs| == |ss| && k < |hs|
    ensures Interleave(hs, ss)
      == Interleave(hs[..k], ss[..k]) + [hs[k]] + ss[k] + Interleave(hs[k + 1..], ss[k + 1..])
  {
    assert hs == hs[..k + 1] + hs[k + 1..] && ss == ss[..k + 1] + ss[k + 1..];
    InterleaveAppend(hs[..k + 1], ss[..k + 1], hs[k + 1..], ss[k + 1..]);
    InterleavePrefixStep(hs, ss, k);
  }

  /** Three more headings with their sections appended after the first `k`. */
  lemma InterleaveThreeMore(h: seq<string>, s: seq<seq<string>>, k: nat)
    requires |h| == |s| && k + 3 <= |h|
    ensures Interleave(h[..k + 3], s[..k + 3])
      == Interleave(h[..k], s[..k]) + [h[k]] + s[k] + [h[k + 1]] + s[k + 1] + [h[k + 2]] + s[k + 2]
  {
    InterleavePrefixStep(h, s, k);
    InterleavePrefixStep(h, s, k + 1);
    InterleavePrefixStep(h, s, k + 2);
  }

  /** Ten headings interleaved with their sections, written out. */
  lemma InterleaveTen(h: seq<string>, s: seq<seq<string>>)
    requires |h| == 10 && |s| == 10
    ensures Interleave(h, s) == [h[0]] + s[0] + [h[1]] + s[1] + [h[2]] + s[2] + [h[3]] + s[3] + [h[4]] + s[4]
      + [h[5]] + s[5] + [h[6]] + s[6] + [h[7]] + s[7] + [h[8]] + s[8] + [h[9]] + s[9]
  {
    assert Interleave(h[..1], s[..1]) == [h[0]] + s[0];
    InterleaveThreeMore(h, s, 1);
    InterleaveThreeMore(h, s, 4);
    InterleaveThreeMore(h, s, 7);
    assert h[..10] == h && s[..10] == s;
  }

  /** The appended lines, for any mission paragraph and any section lists,
      are the headings interleaved with those sections. */
  lemma LayoutInterleaved(m: string, kc: seq<string>, asg: seq<string>, th: seq<string>, pr: seq<string>,
                          ad: seq<string>, ex: seq<string>, ri: seq<string>, nm: seq<string>)
    ensures ["## Mission Control"] + [m]
      + ["\n## Key Concepts & Definitions"] + kc
      + ["\n## Assignments, Projects, Exams"] + asg
      + ["\n## Study & Revision Checklist"]
      + ["### Theory"] + th
      + ["\n### Practice"] + pr
      + ["\n### Admin"] + ad
      + ["\n## Exam Intel"] + ex
      + ["\n## Risk & Follow-ups"] + ri
      + ["\n## Next Moves"] + nm
      == Interleave(GuideHeadings, [[m], kc, asg, [], th, pr, ad, ex, ri, nm])
  {
    var ss: seq<seq<string>> := [[m], kc, asg, [], th, pr, ad, ex, ri, nm];
    InterleaveTen(GuideHeadings, ss);
    var front := ["## Mission Control"] + [m] + ["\n## Key Concepts & Definitions"] + kc
      + ["\n## Assignments, Projects, Exams"] + asg + ["\n## Study & Revision Checklist"];
    assert front + ss[3] == front;
  }

  /** The appended lines are the headings interleaved with their sections. */
  lemma GuideLinesInterleaved(agg: Aggregate)
    requires forall c: Category :: c in agg
    ensures GuideLines(agg) == Interleave(GuideHeadings, GuideSections(agg))
  {
    LayoutInterleaved(MissionText(agg), Bullets(agg[KeyConcepts]), Checkboxes(agg[Assignments]),
      Checkboxes(agg[StudyTheory]), Checkboxes(agg[StudyPractice]), Checkboxes(agg[StudyAdmin]),
      Bullets(agg[ExamIntel]), Bullets(agg[RiskFollowups]), Bullets(agg[NextMoves]));
  }

  lemma MissionTextNonEmpty(agg: Aggregate)
    requires MissionControl in agg && agg[MissionControl] != []
    requires WellFormedList(agg[MissionControl])
    ensures MissionText(agg) != ""
  {
    var items := agg[MissionControl];
    assert IsItem(items[0]);
    JoinHead(items, "\n");
    StripEmptyIffBlank(Join(items, "\n"));
  }

  /** The rendered guide seen from its `k`-th heading: the earlier headings
      with their sections, then that heading directly followed by its own
      section, then the later ones. The ten headings thus appear in their
      fixed order, each with the section it owns. */
  lemma GuideSectionAt(agg: Aggregate, k: nat)
    requires forall c: Category :: c in agg
    requires k < |GuideHeadings|
    ensures GuideLines(agg) == Interleave(GuideHeadings[..k], GuideSections(agg)[..k])
      + [GuideHeadings[k]] + GuideSections(agg)[k]
      + Interleave(GuideHeadings[k + 1..], GuideSections(agg)[k + 1..])
  {
    GuideLinesInterleaved(agg);
    InterleaveSplit(GuideHeadings, GuideSections(agg), k);
  }

  /** Every section but the revision-checklist parent has at least one line:
      a `None recorded.` line stands in for an empty category. */
  lemma GuideSectionsNonEmpty(agg: Aggregate)
    requires forall c: Category :: c in agg
    ensures forall k :: 0 <= k < |GuideHeadings| && k != 3 ==> GuideSections(agg)[k] != []
  {
    var ss := GuideSections(agg);
    assert |ss| == 10;
    forall k | 0 <= k < 10 && k != 3 ensures ss[k] != [] {
      if k == 0 { assert ss[0] == [MissionText(agg)]; }
      else if k == 1 { assert ss[1] == Bullets(agg[KeyConcepts]); }
      else if k == 2 { assert ss[2] == Checkboxes(agg[Assignments]); }
      else if k == 4 { assert ss[4] == Checkboxes(agg[StudyTheory]); }
      else if k == 5 { assert ss[5] == Checkboxes(agg[StudyPractice]); }
      else if k == 6 { assert ss[6] == Checkboxes(agg[StudyAdmin]); }
      else if k == 7 { assert ss[7] == Bullets(agg[ExamIntel]); }
      else if k == 8 { assert ss[8] == Bullets(agg[RiskFollowups]); }
      else { assert ss[9] == Bullets(agg[NextMoves]); }
    }
  }

  /** Once the aggregate is finalised (mission control never empty), the
      list of guide lines has no empty entry (the rendered text still has
      blank lines: headings open with a line break). */
  lemma GuideLinesNonEmpty(agg: Aggregate)
    requires WellFormedAggregate(agg) && agg[MissionControl] != []
    ensures forall l | l in GuideLines(agg) :: l != ""
  {
    MissionTextNonEmpty(agg);
    BulletsNoEmptyLine(agg[KeyConcepts]);
    BulletsNoEmptyLine(agg[ExamIntel]);
    BulletsNoEmptyLine(agg[RiskFollowups]);
    BulletsNoEmptyLine(agg[NextMoves]);
    CheckboxesNoEmptyLine(agg[Assignments]);
    CheckboxesNoEmptyLine(agg[StudyTheory]);
    CheckboxesNoEmptyLine(agg[StudyPractice]);
    CheckboxesNoEmptyLine(agg[StudyAdmin]);
    LayoutNoEmptyLine(MissionText(agg), Bullets(agg[KeyConcepts]), Checkboxes(agg[Assignments]),
      Checkboxes(agg[StudyTheory]), Checkboxes(agg[StudyPractice]), Checkboxes(agg[StudyAdmin]),
      Bullets(agg[ExamIntel]), Bullets(agg[RiskFollowups]), Bullets(agg[NextMoves]));
  }

  /** No line of `lines` is empty. */
  predicate NoEmptyLine(lines: seq<string>) {
    forall l | l in lines :: l != ""
  }

  lemma BulletsNoEmptyLine(items: seq<string>)
    ensures NoEmptyLine(Bullets(items))
  {
    BulletsShape(items);
    forall l | l in Bullets(items) ensures l != "" {
      var i :| 0 <= i < |Bullets(items)| && Bullets(items)[i] == l;
    }
  }

  lemma CheckboxesNoEmptyLine(items: seq<string>)
    ensures NoEmptyLine(Checkboxes(items))
  {
    CheckboxesShape(items);
    forall l | l in Checkboxes(items) ensures l != "" {
      var i :| 0 <= i < |Checkboxes(items)| && Checkboxes(items)[i] == l;
      assert IsCheckboxLine(l);
    }
  }

  /** Non-empty headings around sections without empty entries leave no
      empty entry in the list of lines. */
  lemma LayoutNoEmptyLine(m: string, kc: seq<string>, asg: seq<string>, th: seq<string>, pr: seq<string>,
                          ad: seq<string>, ex: seq<string>, ri: seq<string>, nm: seq<string>)
    requires m != ""
    requires NoEmptyLine(kc) && NoEmptyLine(asg) && NoEmptyLine(th) && NoEmptyLine(pr)
    requires NoEmptyLine(ad) && NoEmptyLine(ex) && NoEmptyLine(ri) && NoEmptyLine(nm)
    ensures NoEmptyLine(["## Mission Control"] + [m]
      + ["\n## Key Concepts & Definitions"] + kc
      + ["\n## Assignments, Projects, Exams"] + asg
      + ["\n## Study & Revision Checklist"]
      + ["### Theory"] + th
      + ["\n### Practice"] + pr
      + ["\n### Admin"] + ad
      + ["\n## Exam Intel"] + ex
      + ["\n## Risk & Follow-ups"] + ri
      + ["\n## Next Moves"] + nm)
  {
  }
}
