/**
 * The server-backed front end (static/script.js): date formatting, the admin
 * view that groups receipts by project and then by level and room, the
 * upload page's list view, the shareable project links and the multipart
 * request the submit handler sends. The page's mutable state (the fetched
 * `receipts` and `projects` arrays) and its view mode are the fields of
 * `ReceiptPage`.
 */
module StaticFrontEnd {
  import opened Wrappers
  import opened Text
  import opened Grouping

  /** A project as `GET /projects` returns it (only the fields the page reads). */
  datatype ProjectRef = ProjectRef(id: nat, name: string)

  /**
   * A receipt as `GET /receipts` returns it. `projectName` is `null` when the
   * receipt's project is missing; `transferDate` is `null` when none was given.
   * `amount` is kept as the text the page prints.
   */
  datatype Receipt = Receipt(
    projectName: Option<string>,
    roomNumber: string,
    studyLevel: string,
    studentId: string,
    amount: string,
    transferDate: Option<string>,
    imagePath: string)

  // ---------------------------------------------------------------- formatDate

  /**
   * `formatDate`: a falsy date (null or empty) gives the empty string; any
   * other date is split on `-` into year, month and day and shown as
   * day/month/year with day and month left-padded with `0` to two
   * characters. Pieces beyond the third are ignored; with fewer than three
   * pieces the day (or month) is `undefined` and calling `padStart` on it throws.
   */
  function FormatDate(date: Option<string>): (r: Result<string, string>)
    ensures date.None? || date == Some("") ==> r == Ok("")
    ensures date.Some? && date.value != "" ==> (r.Ok? <==> |Split(date.value, '-')| >= 3)
    ensures r.Err? ==> r.error == TypeError
  {
    match date
    case None => Ok("")
    case Some(s) =>
      if s == "" then Ok("")
      else
        var parts := Split(s, '-');
        if |parts| < 3 then Err(TypeError)
        else Ok(PadStart(parts[2], 2, '0') + "/" + PadStart(parts[1], 2, '0') + "/" + parts[0])
  }

  /** A stored `y-m-d` date is shown as `d/m/y`, day and month padded to two characters, year as is. */
  lemma FormatDateParts(y: string, m: string, d: string)
    requires '-' !in y && '-' !in m && '-' !in d
    ensures FormatDate(Some(y + "-" + m + "-" + d)) == Ok(PadStart(d, 2, '0') + "/" + PadStart(m, 2, '0') + "/" + y)
  {
    SplitCons(m, '-', d);
    SplitNoSeparator(d, '-');
    assert y + "-" + m + "-" + d == y + ['-'] + (m + ['-'] + d);
    SplitCons(y, '-', m + ['-'] + d);
  }

  /** A stored date with two-character day and month is shown with its pieces unchanged ("2024-03-05" as "05/03/2024"). */
  lemma FormatDateTwoDigits(y: string, m: string, d: string)
    requires '-' !in y && '-' !in m && '-' !in d
    requires |m| == 2 && |d| == 2
    ensures FormatDate(Some(y + "-" + m + "-" + d)) == Ok(d + "/" + m + "/" + y)
  {
    FormatDateParts(y, m, d);
  }

  /** A one-digit day or month gets a leading zero ("2024-3-5" as "05/03/2024"). */
  lemma FormatDateOneDigit(y: string, m: char, d: char)
    requires '-' !in y && m != '-' && d != '-'
    ensures FormatDate(Some(y + "-" + [m] + "-" + [d])) == Ok(['0', d] + "/" + ['0', m] + "/" + y)
  {
    FormatDateParts(y, [m], [d]);
    assert PadStart([d], 2, '0') == ['0', d];
    assert PadStart([m], 2, '0') == ['0', m];
  }

  // ---------------------------------------------------------------- grouping keys

  /** `receipt.projectName || 'N/A'`: a null or empty project name falls back to `N/A`. */
  function ProjectKey(r: Receipt): string
  {
    match r.projectName
    case None => "N/A"
    case Some(n) => if n == "" then "N/A" else n
  }

  /** `${studyLevel}_${roomNumber}`, the key of a level/room sub-group. */
  function LevelRoomKey(r: Receipt): string
  {
    r.studyLevel + "_" + r.roomNumber
  }

  /** The project key is the receipt's own name unless that is null or empty. */
  lemma ProjectKeyFallback(r: Receipt)
    ensures ProjectKey(r) == "N/A" <==> r.projectName.None? || r.projectName.value in {"", "N/A"}
    ensures r.projectName.Some? && r.projectName.value != "" ==> ProjectKey(r) == r.projectName.value
  {
  }

  /** The level/room key splits back into level and room when neither contains `_`. */
  lemma LevelRoomKeySplits(r: Receipt)
    requires '_' !in r.studyLevel && '_' !in r.roomNumber
    ensures Split(LevelRoomKey(r), '_') == [r.studyLevel, r.roomNumber]
  {
    SplitCons(r.studyLevel, '_', r.roomNumber);
    SplitNoSeparator(r.roomNumber, '_');
  }

  // ---------------------------------------------------------------- the rendered view

  /** One table row of the admin view: student ID, amount, formatted date and image source. */
  datatype Row = Row(studentId: string, amount: string, date: Result<string, string>, imageSrc: string)

  /** A level/room sub-section: its key, the level and room its header shows, the count and the rows. */
  datatype LevelRoomSection = LevelRoomSection(key: string, level: string, room: string, count: nat, rows: seq<Row>)

  /** A project section: its name, the receipt count in its header and its sub-sections. */
  datatype ProjectSection = ProjectSection(project: string, count: nat, groups: seq<LevelRoomSection>)

  /** One entry of the upload page's list view. */
  datatype ListItem = ListItem(
    project: string, room: string, level: string, studentId: string, amount: string,
    date: Result<string, string>, imageSrc: string)

  /** The two renderings, chosen by whether the page holds the receipt form. */
  datatype Display = ListView(items: seq<ListItem>) | GroupedView(sections: seq<ProjectSection>)

  function ImageSrc(r: Receipt): string
  {
    "/uploads/" + r.imagePath
  }

  function RowOf(r: Receipt): Row
  {
    Row(r.studentId, r.amount, FormatDate(r.transferDate), ImageSrc(r))
  }

  function ItemOf(r: Receipt): ListItem
  {
    ListItem(ProjectKey(r), r.roomNumber, r.studyLevel, r.studentId, r.amount, FormatDate(r.transferDate), ImageSrc(r))
  }

  function RowsOf(rs: seq<Receipt>): seq<Row>
  {
    seq(|rs|, i requires 0 <= i < |rs| => RowOf(rs[i]))
  }

  /**
   * The sub-section for key `k` among one project's receipts: the header shows
   * the first two `_` pieces of the key (an absent room prints as `undefined`),
   * the count of receipts under the key, and their rows in input order.
   */
  function LevelRoomSectionFor(members: seq<Receipt>, k: string): LevelRoomSection
  {
    var parts := Split(k, '_');
    var sel := Select(members, LevelRoomKey, k);
    LevelRoomSection(k, parts[0], if |parts| >= 2 then parts[1] else "undefined", |sel|, RowsOf(sel))
  }

  /** The level/room keys of a project's receipts, in the order the view visits them. */
  function SortedLevelRoomKeys(members: seq<Receipt>): seq<string>
  {
    SortKeys(Dedup(KeysOf(members, LevelRoomKey)))
  }

  /** The sub-sections for the keys `keys`, in that order. */
  function LevelRoomSectionsFor(members: seq<Receipt>, keys: seq<string>): seq<LevelRoomSection>
  {
    MapSeq((k: string) => LevelRoomSectionFor(members, k), keys)
  }

  /** The section of project `p`: its receipts, split by level/room key, keys ascending. */
  function ProjectSectionFor(rs: seq<Receipt>, p: string): ProjectSection
  {
    var members := Select(rs, ProjectKey, p);
    ProjectSection(p, |members|, LevelRoomSectionsFor(members, SortedLevelRoomKeys(members)))
  }

  /** The sections for the project names `names`, in that order. */
  function ProjectSectionsFor(rs: seq<Receipt>, names: seq<string>): seq<ProjectSection>
  {
    MapSeq((p: string) => ProjectSectionFor(rs, p), names)
  }

  /**
   * The admin view of `rs` when no key names an inherited property (see
   * `DisplayGrouped`): one section per project key, in order of first appearance.
   */
  function Grouped(rs: seq<Receipt>): seq<ProjectSection>
  {
    ProjectSectionsFor(rs, Dedup(KeysOf(rs, ProjectKey)))
  }

  // ---------------------------------------------------------------- rendering loops

  /** The `forEach` that emits one table row per receipt of a sub-group, in order. */
  method RenderRows(rs: seq<Receipt>) returns (rows: seq<Row>)
    ensures |rows| == |rs|
    ensures forall i :: 0 <= i < |rs| ==> rows[i] == RowOf(rs[i])
  {
    rows := [];
    for i := 0 to |rs|
      invariant |rows| == i
      invariant forall t :: 0 <= t < i ==> rows[t] == RowOf(rs[t])
    {
      rows := rows + [RowOf(rs[i])];
    }
  }

  /** The upload page's list view: one item per receipt, in array order. */
  method RenderList(rs: seq<Receipt>) returns (items: seq<ListItem>)
    ensures |items| == |rs|
    ensures forall i :: 0 <= i < |rs| ==> items[i] == ItemOf(rs[i])
  {
    items := [];
    for i := 0 to |rs|
      invariant |items| == i
      invariant forall t :: 0 <= t < i ==> items[t] == ItemOf(rs[t])
    {
      items := items + [ItemOf(rs[i])];
    }
  }

  /**
   * The body of the per-project `forEach` of `displayReceipts`: group the
   * project's receipts by level/room, visit the keys sorted and emit each
   * sub-group's header and rows. The grouping throws on a level/room key
   * that names an inherited property.
   */
  method DisplayLevelRooms(members: seq<Receipt>) returns (r: Result<seq<LevelRoomSection>, string>)
    ensures r.Err? <==> SomeInheritedKey(members, LevelRoomKey)
    ensures r.Err? ==> r.error == TypeError
    ensures r.Ok? ==> r.value == LevelRoomSectionsFor(members, SortedLevelRoomKeys(members))
  {
    var byLevelRoom := GroupBy(members, LevelRoomKey);
    if byLevelRoom.Err? {
      return Err(byLevelRoom.error);
    }
    var groups := DisplaySortedKeys(members, byLevelRoom.value);
    r := Ok(groups);
  }

  /** The `forEach` over `Object.keys(receiptsByLevelRoom).sort()`. */
  method DisplaySortedKeys(members: seq<Receipt>, byLevelRoom: Dict<Receipt>) returns (groups: seq<LevelRoomSection>)
    requires IsGrouping(byLevelRoom, members, LevelRoomKey)
    ensures groups == LevelRoomSectionsFor(members, SortKeys(byLevelRoom.order))
  {
    var keys := SortKeys(byLevelRoom.order);
    groups := [];
    for i := 0 to |keys|
      invariant groups == LevelRoomSectionsFor(members, keys[..i])
    {
      SortedKeyIsGrouped(members, byLevelRoom, i);
      var group := DisplayLevelRoom(members, byLevelRoom, keys[i]);
      MapSeqSnoc((k: string) => LevelRoomSectionFor(members, k), keys, i);
      groups := groups + [group];
    }
    assert keys[..|keys|] == keys;
  }

  /** The callback for one level/room key: its header fields and the rows of its receipts. */
  method DisplayLevelRoom(members: seq<Receipt>, byLevelRoom: Dict<Receipt>, key: string) returns (group: LevelRoomSection)
    requires key in byLevelRoom.entries
    requires byLevelRoom.entries[key] == Select(members, LevelRoomKey, key)
    ensures group == LevelRoomSectionFor(members, key)
  {
    var parts := Split(key, '_');
    var room := if |parts| >= 2 then parts[1] else "undefined";
    var levelRoomReceipts := byLevelRoom.entries[key];
    var rows := RenderRows(levelRoomReceipts);
    assert rows == RowsOf(levelRoomReceipts);
    group := LevelRoomSection(key, parts[0], room, |levelRoomReceipts|, rows);
  }

  /** A key listed by `Object.keys(receiptsByLevelRoom).sort()` names a group holding exactly that key's receipts. */
  lemma SortedKeyIsGrouped(members: seq<Receipt>, d: Dict<Receipt>, i: nat)
    requires IsGrouping(d, members, LevelRoomKey)
    requires i < |SortKeys(d.order)|
    ensures SortKeys(d.order)[i] in d.entries
    ensures d.entries[SortKeys(d.order)[i]] == Select(members, LevelRoomKey, SortKeys(d.order)[i])
  {
    var keys := SortKeys(d.order);
    assert keys[i] in multiset(keys);
  }

  /** Some receipt's project key or level/room key names an inherited property, so one of the grouping loops throws. */
  predicate GroupingThrows(rs: seq<Receipt>)
  {
    SomeInheritedKey(rs, ProjectKey) || SomeInheritedKey(rs, LevelRoomKey)
  }

  /**
   * The grouped branch of `displayReceipts`: group by project, then render
   * each project's section in the order its name first appears. It throws
   * exactly when some receipt's project or level/room key names an
   * inherited property.
   */
  method DisplayGrouped(rs: seq<Receipt>) returns (r: Result<seq<ProjectSection>, string>)
    ensures r.Err? <==> GroupingThrows(rs)
    ensures r.Err? ==> r.error == TypeError
    ensures r.Ok? ==> r.value == Grouped(rs)
  {
    var byProject := GroupBy(rs, ProjectKey);
    if byProject.Err? {
      return Err(byProject.error);
    }
    r := DisplayProjects(rs, byProject.value);
    MembersInheritedKey(rs);
  }

  /** The receipts of one of the projects `names` hold a level/room key that names an inherited property. */
  predicate SomeProjectThrows(rs: seq<Receipt>, names: seq<string>)
  {
    exists j :: 0 <= j < |names| && SomeInheritedKey(Select(rs, ProjectKey, names[j]), LevelRoomKey)
  }

  /** Some project's receipts hold an inherited level/room key exactly when some receipt does. */
  lemma MembersInheritedKey(rs: seq<Receipt>)
    ensures SomeProjectThrows(rs, Dedup(KeysOf(rs, ProjectKey))) <==> SomeInheritedKey(rs, LevelRoomKey)
  {
    var names := Dedup(KeysOf(rs, ProjectKey));
    if j :| 0 <= j < |names| && SomeInheritedKey(Select(rs, ProjectKey, names[j]), LevelRoomKey) {
      var members := Select(rs, ProjectKey, names[j]);
      var m :| 0 <= m < |members| && LevelRoomKey(members[m]) in ObjectPrototypeNames;
      SelectFromInput(rs, ProjectKey, names[j], m);
      var i :| 0 <= i < |rs| && rs[i] == members[m];
      assert LevelRoomKey(rs[i]) in ObjectPrototypeNames;
    }
    if i :| 0 <= i < |rs| && LevelRoomKey(rs[i]) in ObjectPrototypeNames {
      var p := ProjectKey(rs[i]);
      LandsInOneGroup(rs, ProjectKey, i);
      var j :| 0 <= j < |names| && names[j] == p;
      var members := Select(rs, ProjectKey, p);
      var m :| 0 <= m < |members| && members[m] == rs[i];
      assert SomeInheritedKey(Select(rs, ProjectKey, names[j]), LevelRoomKey);
    }
  }

  /** The `forEach` over `Object.keys(receiptsByProject)`, which stops when a project's level/room grouping throws. */
  method DisplayProjects(rs: seq<Receipt>, byProject: Dict<Receipt>) returns (r: Result<seq<ProjectSection>, string>)
    requires forall k :: k in byProject.order ==> k in byProject.entries && byProject.entries[k] == Select(rs, ProjectKey, k)
    ensures r.Err? <==> SomeProjectThrows(rs, byProject.order)
    ensures r.Err? ==> r.error == TypeError
    ensures r.Ok? ==> r.value == ProjectSectionsFor(rs, byProject.order)
  {
    var names := byProject.order;
    var sections := [];
    for j := 0 to |names|
      invariant sections == ProjectSectionsFor(rs, names[..j])
      invariant !SomeProjectThrows(rs, names[..j])
    {
      assert names[j] in byProject.entries;
      var section := DisplayProject(rs, byProject, names[j]);
      if section.Err? {
        assert SomeProjectThrows(rs, names) by {
          assert names[j] == names[j];
        }
        return Err(section.error);
      }
      MapSeqSnoc((p: string) => ProjectSectionFor(rs, p), names, j);
      NoProjectThrowsSnoc(rs, names, j);
      sections := sections + [section.value];
    }
    assert names[..|names|] == names;
    r := Ok(sections);
  }

  /** A project whose receipts hold no inherited level/room key extends a prefix none of whose projects throws. */
  lemma NoProjectThrowsSnoc(rs: seq<Receipt>, names: seq<string>, j: nat)
    requires j < |names|
    requires !SomeProjectThrows(rs, names[..j])
    requires !SomeInheritedKey(Select(rs, ProjectKey, names[j]), LevelRoomKey)
    ensures !SomeProjectThrows(rs, names[..j + 1])
  {
    forall t | 0 <= t < j + 1
      ensures !SomeInheritedKey(Select(rs, ProjectKey, names[t]), LevelRoomKey)
    {
      if t < j {
        assert names[t] == names[..j][t];
      }
    }
  }

  /** The callback for one project: its header count and its level/room sub-sections. */
  method DisplayProject(rs: seq<Receipt>, byProject: Dict<Receipt>, name: string) returns (r: Result<ProjectSection, string>)
    requires name in byProject.entries
    requires byProject.entries[name] == Select(rs, ProjectKey, name)
    ensures r.Err? <==> SomeInheritedKey(Select(rs, ProjectKey, name), LevelRoomKey)
    ensures r.Err? ==> r.error == TypeError
    ensures r.Ok? ==> r.value == ProjectSectionFor(rs, name)
  {
    var projectReceipts := byProject.entries[name];
    var groups := DisplayLevelRooms(projectReceipts);
    if groups.Err? {
      return Err(groups.error);
    }
    r := Ok(ProjectSection(name, |projectReceipts|, groups.value));
  }

  // ---------------------------------------------------------------- what the view promises

  function TotalCount(ss: seq<ProjectSection>): nat
  {
    if ss == [] then 0 else TotalCount(ss[..|ss| - 1]) + ss[|ss| - 1].count
  }

  function GroupsCount(gs: seq<LevelRoomSection>): nat
  {
    if gs == [] then 0 else GroupsCount(gs[..|gs| - 1]) + gs[|gs| - 1].count
  }

  lemma {:induction false} TotalCountGather(rs: seq<Receipt>, ks: seq<string>)
    ensures TotalCount(ProjectSectionsFor(rs, ks)) == |Gather(rs, ProjectKey, ks)|
  {
    if ks != [] {
      var init := ks[..|ks| - 1];
      var ss := ProjectSectionsFor(rs, ks);
      assert ss[..|ss| - 1] == ProjectSectionsFor(rs, init);
      TotalCountGather(rs, init);
    }
  }

  lemma {:induction false} GroupsCountGather(members: seq<Receipt>, ks: seq<string>)
    ensures GroupsCount(LevelRoomSectionsFor(members, ks)) == |Gather(members, LevelRoomKey, ks)|
  {
    if ks != [] {
      var init := ks[..|ks| - 1];
      var gs := LevelRoomSectionsFor(members, ks);
      assert gs[..|gs| - 1] == LevelRoomSectionsFor(members, init);
      GroupsCountGather(members, init);
    }
  }

  /** The sorted level/room keys are distinct, ascending, and exactly the keys of the project's receipts. */
  lemma SortedLevelRoomKeysFacts(members: seq<Receipt>)
    ensures StrictlySorted(SortedLevelRoomKeys(members))
    ensures Distinct(SortedLevelRoomKeys(members))
    ensures forall k :: k in SortedLevelRoomKeys(members) <==> k in KeysOf(members, LevelRoomKey)
  {
    SortKeysSorted(Dedup(KeysOf(members, LevelRoomKey)));
  }

  /** Section counts add up to the number of receipts. */
  lemma GroupedTotal(rs: seq<Receipt>)
    ensures TotalCount(Grouped(rs)) == |rs|
  {
    var names := Dedup(KeysOf(rs, ProjectKey));
    TotalCountGather(rs, names);
    forall i | 0 <= i < |rs| ensures ProjectKey(rs[i]) in names {
      assert KeysOf(rs, ProjectKey)[i] == ProjectKey(rs[i]);
    }
    GatherPermutation(rs, ProjectKey, names);
  }

  /**
   * Inside a project section the level/room sub-sections are in strictly
   * ascending key order, each header count equals the rows under it, and
   * the sub-section counts add up to the project header's count.
   */
  lemma ProjectSectionConsistent(rs: seq<Receipt>, p: string)
    ensures var s := ProjectSectionFor(rs, p);
      && (forall i, j :: 0 <= i < j < |s.groups| ==> Less(s.groups[i].key, s.groups[j].key))
      && (forall i :: 0 <= i < |s.groups| ==> s.groups[i].count == |s.groups[i].rows|)
      && GroupsCount(s.groups) == s.count
  {
    var members := Select(rs, ProjectKey, p);
    var keys := SortedLevelRoomKeys(members);
    SortedLevelRoomKeysFacts(members);
    GroupsCountGather(members, keys);
    forall i | 0 <= i < |members| ensures LevelRoomKey(members[i]) in keys {
      assert KeysOf(members, LevelRoomKey)[i] == LevelRoomKey(members[i]);
    }
    GatherPermutation(members, LevelRoomKey, keys);
  }

  /** The sub-sections of a project carry distinct keys. */
  lemma LevelRoomKeysDistinct(members: seq<Receipt>)
    ensures var gs := LevelRoomSectionsFor(members, SortedLevelRoomKeys(members));
      forall t1, t2 :: 0 <= t1 < t2 < |gs| ==> gs[t1].key != gs[t2].key
  {
    var keys := SortedLevelRoomKeys(members);
    var gs := LevelRoomSectionsFor(members, keys);
    SortedLevelRoomKeysFacts(members);
    forall t1, t2 | 0 <= t1 < t2 < |gs| ensures gs[t1].key != gs[t2].key {
      assert gs[t1].key == keys[t1] && gs[t2].key == keys[t2];
    }
  }

  /** The sub-section for key `k` holds the row of every receipt with that key. */
  lemma RowInLevelRoom(members: seq<Receipt>, m: nat)
    requires m < |members|
    ensures var gs := LevelRoomSectionsFor(members, SortedLevelRoomKeys(members));
      exists t :: 0 <= t < |gs| && gs[t].key == LevelRoomKey(members[m]) && RowOf(members[m]) in gs[t].rows
  {
    var keys := SortedLevelRoomKeys(members);
    var gs := LevelRoomSectionsFor(members, keys);
    var k := LevelRoomKey(members[m]);
    SortedLevelRoomKeysFacts(members);
    assert KeysOf(members, LevelRoomKey)[m] == k;
    assert k in keys;
    var t :| 0 <= t < |keys| && keys[t] == k;
    var g := LevelRoomSectionFor(members, k);
    assert gs[t] == g;
    LandsInOneGroup(members, LevelRoomKey, m);
    var sel := Select(members, LevelRoomKey, k);
    var u :| 0 <= u < |sel| && sel[u] == members[m];
    assert g.rows[u] == RowOf(members[m]);
  }

  /** A receipt of a project lands in exactly one of its sub-sections: the one with its level/room key. */
  lemma LandsInOneLevelRoom(members: seq<Receipt>, m: nat)
    requires m < |members|
    ensures var gs := LevelRoomSectionsFor(members, SortedLevelRoomKeys(members));
      && (exists t :: 0 <= t < |gs| && gs[t].key == LevelRoomKey(members[m]) && RowOf(members[m]) in gs[t].rows)
      && (forall t1, t2 :: 0 <= t1 < t2 < |gs| ==> gs[t1].key != gs[t2].key)
  {
    LevelRoomKeysDistinct(members);
    RowInLevelRoom(members, m);
  }

  /** The project sections have distinct names, and the receipt's project key names one of them. */
  lemma LandsInOneProject(rs: seq<Receipt>, i: nat)
    requires i < |rs|
    ensures var v := Grouped(rs);
      && (exists j :: 0 <= j < |v| && v[j].project == ProjectKey(rs[i]))
      && (forall j1, j2 :: 0 <= j1 < j2 < |v| ==> v[j1].project != v[j2].project)
  {
    var v := Grouped(rs);
    var names := Dedup(KeysOf(rs, ProjectKey));
    LandsInOneGroup(rs, ProjectKey, i);
    var j0 :| 0 <= j0 < |names| && names[j0] == ProjectKey(rs[i]);
    assert v[j0].project == ProjectKey(rs[i]);
  }

  /** The section named `p` holds the sub-sections of the receipts with project key `p`. */
  lemma SectionGroups(rs: seq<Receipt>, j: nat)
    requires j < |Grouped(rs)|
    ensures var members := Select(rs, ProjectKey, Grouped(rs)[j].project);
      Grouped(rs)[j].groups == LevelRoomSectionsFor(members, SortedLevelRoomKeys(members))
  {
  }

  /**
   * Every receipt lands in exactly one project section (the one named by its
   * project key) and, inside it, in exactly one level/room sub-section (the
   * one with its level/room key), whose rows include the receipt's row.
   */
  lemma LandsInExactlyOneSection(rs: seq<Receipt>, i: nat)
    requires i < |rs|
    ensures var v := Grouped(rs);
      && (exists j :: 0 <= j < |v| && v[j].project == ProjectKey(rs[i]))
      && (forall j1, j2 :: 0 <= j1 < j2 < |v| ==> v[j1].project != v[j2].project)
    ensures forall j :: 0 <= j < |Grouped(rs)| && Grouped(rs)[j].project == ProjectKey(rs[i]) ==>
      var gs := Grouped(rs)[j].groups;
      && (exists t :: 0 <= t < |gs| && gs[t].key == LevelRoomKey(rs[i]) && RowOf(rs[i]) in gs[t].rows)
      && (forall t1, t2 :: 0 <= t1 < t2 < |gs| ==> gs[t1].key != gs[t2].key)
  {
    LandsInOneProject(rs, i);
    var p := ProjectKey(rs[i]);
    LandsInOneGroup(rs, ProjectKey, i);
    var members := Select(rs, ProjectKey, p);
    var m :| 0 <= m < |members| && members[m] == rs[i];
    LandsInOneLevelRoom(members, m);
    forall j | 0 <= j < |Grouped(rs)| && Grouped(rs)[j].project == p
      ensures Grouped(rs)[j].groups == LevelRoomSectionsFor(members, SortedLevelRoomKeys(members))
    {
      SectionGroups(rs, j);
    }
  }

  /** The receipt's date is one `formatDate` throws on. */
  predicate DateThrows(r: Receipt)
  {
    FormatDate(r.transferDate).Err?
  }

  /** Some row of the grouped view carries a date that could not be formatted. */
  predicate ViewThrows(v: seq<ProjectSection>)
  {
    exists j, t, u :: 0 <= j < |v| && 0 <= t < |v[j].groups| && 0 <= u < |v[j].groups[t].rows|
      && v[j].groups[t].rows[u].date.Err?
  }

  /** The row of every receipt appears in some sub-section of the grouped view. */
  lemma RowInGrouped(rs: seq<Receipt>, i: nat)
    requires i < |rs|
    ensures exists j, t :: 0 <= j < |Grouped(rs)| && 0 <= t < |Grouped(rs)[j].groups| && RowOf(rs[i]) in Grouped(rs)[j].groups[t].rows
  {
    var p := ProjectKey(rs[i]);
    var names := Dedup(KeysOf(rs, ProjectKey));
    LandsInOneGroup(rs, ProjectKey, i);
    var j :| 0 <= j < |names| && names[j] == p;
    var members := Select(rs, ProjectKey, p);
    assert Grouped(rs)[j].groups == LevelRoomSectionsFor(members, SortedLevelRoomKeys(members));
    var m :| 0 <= m < |members| && members[m] == rs[i];
    RowInLevelRoom(members, m);
  }

  /** A receipt whose date `formatDate` throws on makes the admin view throw: its row is rendered. */
  lemma ReceiptThrowsGroupedThrows(rs: seq<Receipt>, i: nat)
    requires i < |rs| && DateThrows(rs[i])
    ensures ViewThrows(Grouped(rs))
  {
    var v := Grouped(rs);
    RowInGrouped(rs, i);
    var j, t :| 0 <= j < |v| && 0 <= t < |v[j].groups| && RowOf(rs[i]) in v[j].groups[t].rows;
    var u :| 0 <= u < |v[j].groups[t].rows| && v[j].groups[t].rows[u] == RowOf(rs[i]);
    assert v[j].groups[t].rows[u].date.Err?;
  }

  /** Each row of a project's sub-sections is the row of one of the project's receipts. */
  lemma RowFromMember(members: seq<Receipt>, t: nat, u: nat)
    requires var gs := LevelRoomSectionsFor(members, SortedLevelRoomKeys(members));
      t < |gs| && u < |gs[t].rows|
    ensures exists m :: 0 <= m < |members| && LevelRoomSectionsFor(members, SortedLevelRoomKeys(members))[t].rows[u] == RowOf(members[m])
  {
    var keys := SortedLevelRoomKeys(members);
    var sel := Select(members, LevelRoomKey, keys[t]);
    assert LevelRoomSectionsFor(members, keys)[t].rows == RowsOf(sel);
    SelectFromInput(members, LevelRoomKey, keys[t], u);
  }

  /** A row of the admin view that throws comes from a receipt whose date throws. */
  lemma GroupedThrowsFromReceipt(rs: seq<Receipt>)
    requires ViewThrows(Grouped(rs))
    ensures exists i :: 0 <= i < |rs| && DateThrows(rs[i])
  {
    var v := Grouped(rs);
    var j, t, u :| 0 <= j < |v| && 0 <= t < |v[j].groups| && 0 <= u < |v[j].groups[t].rows|
      && v[j].groups[t].rows[u].date.Err?;
    var names := Dedup(KeysOf(rs, ProjectKey));
    var members := Select(rs, ProjectKey, names[j]);
    assert v[j].groups == LevelRoomSectionsFor(members, SortedLevelRoomKeys(members));
    RowFromMember(members, t, u);
    var m :| 0 <= m < |members| && v[j].groups[t].rows[u] == RowOf(members[m]);
    SelectFromInput(rs, ProjectKey, names[j], m);
    var i :| 0 <= i < |rs| && rs[i] == members[m];
    assert DateThrows(rs[i]);
  }

  /**
   * Rendering the admin view throws exactly when some receipt's date
   * throws in `formatDate`: every receipt is rendered, and only receipts are.
   */
  lemma GroupedThrowsIff(rs: seq<Receipt>)
    ensures ViewThrows(Grouped(rs)) <==> exists i :: 0 <= i < |rs| && DateThrows(rs[i])
  {
    if i :| 0 <= i < |rs| && DateThrows(rs[i]) {
      ReceiptThrowsGroupedThrows(rs, i);
    }
    if ViewThrows(Grouped(rs)) {
      GroupedThrowsFromReceipt(rs);
    }
  }

  /** A receipt on which the admin view throws: an inherited project or level/room key, or a bad date. */
  predicate ReceiptThrows(r: Receipt)
  {
    ProjectKey(r) in ObjectPrototypeNames || LevelRoomKey(r) in ObjectPrototypeNames || DateThrows(r)
  }

  /**
   * For the outcome `v` of the grouped branch (as `DisplayGrouped` ensures
   * it), rendering fails, in the grouping or in a row's `formatDate`,
   * exactly when some receipt is one the view throws on.
   */
  lemma AdminViewThrowsIff(rs: seq<Receipt>, v: Result<seq<ProjectSection>, string>)
    requires v.Err? <==> GroupingThrows(rs)
    requires v.Ok? ==> v.value == Grouped(rs)
    ensures (v.Err? || ViewThrows(v.value)) <==> exists i :: 0 <= i < |rs| && ReceiptThrows(rs[i])
  {
    GroupedThrowsIff(rs);
    if i :| 0 <= i < |rs| && ReceiptThrows(rs[i]) {
      if !DateThrows(rs[i]) {
        assert GroupingThrows(rs);
      }
    }
  }

  // ---------------------------------------------------------------- project links

  /** A shareable submission link: the project's name, its relative path and its full URL. */
  datatype Link = Link(name: string, href: string, url: string)

  /** `/submit/<id>`, the path of a project's submission page. */
  function SubmitHref(id: nat): (r: string)
    ensures |r| > 8 && r[..8] == "/submit/" && r[8..] == NatToString(id)
  {
    "/submit/" + NatToString(id)
  }

  function LinkFor(origin: string, p: ProjectRef): Link
  {
    Link(p.name, SubmitHref(p.id), origin + SubmitHref(p.id))
  }

  // ---------------------------------------------------------------- the upload request

  /** The values of the upload form's fields. */
  datatype UploadForm = UploadForm(
    projectSelect: string, roomSelect: string, studyLevel: string, studentId: string,
    amount: string, transferDate: string, notes: string)

  /** A multipart request: its text fields and the file name of its `receiptImage` file part, if any. */
  datatype UploadRequest = UploadRequest(fields: map<string, string>, file: Option<string>)

  /**
   * The `FormData` the submit handler posts. There is no check for a missing
   * file: `files[0]` is then `undefined`, which `append` stores as the text
   * field `receiptImage` = `"undefined"` rather than as a file part.
   */
  function BuildUploadRequest(f: UploadForm, file: Option<string>): (r: UploadRequest)
    ensures r.file == file
    ensures {"projectSelect", "roomSelect", "studyLevel", "studentId", "amount", "transferDate", "notes"} <= r.fields.Keys
    ensures r.fields["roomSelect"] == f.roomSelect && r.fields["studyLevel"] == f.studyLevel
    ensures r.fields["studentId"] == f.studentId && r.fields["transferDate"] == f.transferDate
    ensures r.fields["projectSelect"] == f.projectSelect && r.fields["notes"] == f.notes
    ensures r.fields["amount"] == f.amount
    ensures file.None? <==> "receiptImage" in r.fields
  {
    var fields := map[
      "projectSelect" := f.projectSelect, "roomSelect" := f.roomSelect, "studyLevel" := f.studyLevel,
      "studentId" := f.studentId, "amount" := f.amount, "transferDate" := f.transferDate, "notes" := f.notes];
    UploadRequest(if file.None? then fields["receiptImage" := "undefined"] else fields, file)
  }

  /** How the submit handler reacts to the upload response. */
  datatype UploadReaction = Submitted | UploadFailed

  /** `response.ok`, a status from 200 to 299, shows the success message and refetches; any other status alerts `Upload failed.`. */
  function ReactTo(status: nat): (r: UploadReaction)
    ensures r == Submitted <==> 200 <= status <= 299
  {
    if 200 <= status <= 299 then Submitted else UploadFailed
  }

  // ---------------------------------------------------------------- the page

  /** The page's state: the arrays last fetched and whether it is the upload page (it holds the receipt form). */
  class ReceiptPage {
    var receipts: seq<Receipt>
    var projects: seq<ProjectRef>
    const uploadPage: bool

    constructor(uploadPage: bool)
      ensures this.uploadPage == uploadPage && receipts == [] && projects == []
    {
      this.uploadPage := uploadPage;
      receipts := [];
      projects := [];
    }

    /** `displayReceipts`: the list view on the upload page, the grouped view elsewhere. */
    method DisplayReceipts() returns (d: Result<Display, string>)
      ensures uploadPage ==>
        && d.Ok? && d.value.ListView? && |d.value.items| == |receipts|
        && forall i :: 0 <= i < |receipts| ==> d.value.items[i] == ItemOf(receipts[i])
      ensures !uploadPage ==>
        && (d.Err? <==> GroupingThrows(receipts))
        && (d.Err? ==> d.error == TypeError)
        && (d.Ok? ==> d.value == GroupedView(Grouped(receipts)))
    {
      if uploadPage {
        var items := RenderList(receipts);
        d := Ok(ListView(items));
      } else {
        var sections := DisplayGrouped(receipts);
        if sections.Err? {
          return Err(sections.error);
        }
        d := Ok(GroupedView(sections.value));
      }
    }

    /** `displayProjectLinks`: one link per project, in the fetched order. */
    method DisplayProjectLinks(origin: string) returns (links: seq<Link>)
      ensures |links| == |projects|
      ensures forall i :: 0 <= i < |projects| ==> links[i] == LinkFor(origin, projects[i])
    {
      links := [];
      for i := 0 to |projects|
        invariant |links| == i
        invariant forall t :: 0 <= t < i ==> links[t] == LinkFor(origin, projects[t])
      {
        links := links + [LinkFor(origin, projects[i])];
      }
    }

    /** `fetchReceipts` on success: the array is replaced by the response, then displayed. */
    method ReceiveReceipts(rs: seq<Receipt>) returns (d: Result<Display, string>)
      modifies this
      ensures receipts == rs && projects == old(projects)
      ensures !uploadPage ==>
        && (d.Err? <==> GroupingThrows(rs))
        && (d.Err? ==> d.error == TypeError)
        && (d.Ok? ==> d.value == GroupedView(Grouped(rs)))
      ensures uploadPage ==>
        && d.Ok? && d.value.ListView? && |d.value.items| == |rs|
        && forall i :: 0 <= i < |rs| ==> d.value.items[i] == ItemOf(rs[i])
    {
      receipts := rs;
      d := DisplayReceipts();
    }

    /** `fetchProjects` on success: the array is replaced by the response and the links redrawn. */
    method ReceiveProjects(ps: seq<ProjectRef>, origin: string) returns (links: seq<Link>)
      modifies this
      ensures projects == ps && receipts == old(receipts)
      ensures |links| == |ps| && forall i :: 0 <= i < |ps| ==> links[i] == LinkFor(origin, ps[i])
    {
      projects := ps;
      links := DisplayProjectLinks(origin);
    }
  }
}
