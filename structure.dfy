/** The manifest of create_structure.py: `build_structure(root)`, the
    path-to-content table the script writes, and the extra directories of
    `ensure_empty_dirs`. The texts of the templates are inert strings and
    are not reproduced: `text(t)` stands for the string the script holds in
    template `t` (for `Readme` it includes the time stamp taken at start-up). */
module Structure {
  import opened Paths
  import opened Bulk

  /** The template constants of create_structure.py. */
  datatype Template =
    | Readme | PrdFa | PhasesFa | UiRulesFa
    | FlowOnboarding | FlowHome | FlowCreateTask | FlowTaskDetail | FlowReminder | FlowAnalytics
    | TaskRules | ReminderRules | StatusRules | AnalyticsRules | DifficultyRules
    | MvpTasks | NotifTasks | AnalyticsTasks | MediaTasks
    | LayoutTsx | TabsLayout | HomeScreen | AnalyticsScreen | SettingsScreen | TaskNew | TaskDetail
    | ColorsTs | TypographyTs | SpacingTs | RadiusTs | ShadowsTs | ThemeTs
    | DepsTs | EnvTs | AppConfigTs | I18nTs | BootPlaceholder | PackageJson | AppJson

  /** A file name with its content. */
  datatype Leaf = Leaf(name: string, content: string)

  /** Files that share a directory, given relative to the root. */
  datatype Group = Group(dir: seq<string>, leaves: seq<Leaf>)

  /** The entries of a group, placed under `root`. */
  function Under(root: Path, g: Group): (s: seq<Entry>)
    ensures |s| == |g.leaves|
    ensures forall i :: 0 <= i < |s| ==>
              s[i].path == root + g.dir + [g.leaves[i].name] && s[i].content == g.leaves[i].content
  {
    seq(|g.leaves|, i requires 0 <= i < |g.leaves| =>
      Entry(root + g.dir + [g.leaves[i].name], g.leaves[i].content))
  }

  /** The number of files in each group of the table. */
  const GroupSizes: seq<nat> := [1, 2, 6, 6, 4, 2, 1, 4, 2, 1, 2, 2, 2, 5, 1, 1, 1, 1, 1]

  /** The table of `build_structure`, directory by directory, in the order
      of the source. */
  function Layout(text: Template -> string): (r: seq<Group>)
    ensures |r| == 19
    ensures forall k :: 0 <= k < 19 ==> |r[k].leaves| == GroupSizes[k]
  {
    [ Group([], [Leaf("README.md", text(Readme))]),
      Group(["specs"], [Leaf("prd.fa.md", text(PrdFa)), Leaf("phases.fa.md", text(PhasesFa))]),
      Group(["specs", "flow"],
        [ Leaf("01-onboarding.flow.fa.md", text(FlowOnboarding)),
          Leaf("02-home.flow.fa.md", text(FlowHome)),
          Leaf("03-create-task.flow.fa.md", text(FlowCreateTask)),
          Leaf("04-task-detail.flow.fa.md", text(FlowTaskDetail)),
          Leaf("05-reminder.flow.fa.md", text(FlowReminder)),
          Leaf("06-analytics.flow.fa.md", text(FlowAnalytics)) ]),
      Group(["specs", "rules"],
        [ Leaf("ui.rules.fa.md", text(UiRulesFa)),
          Leaf("task.rules.fa.md", text(TaskRules)),
          Leaf("reminder.rules.fa.md", text(ReminderRules)),
          Leaf("status.rules.fa.md", text(StatusRules)),
          Leaf("analytics.rules.fa.md", text(AnalyticsRules)),
          Leaf("difficulty.rules.fa.md", text(DifficultyRules)) ]),
      Group(["specs", "tasks"],
        [ Leaf("mvp.tasks.fa.md", text(MvpTasks)),
          Leaf("notifications.tasks.fa.md", text(NotifTasks)),
          Leaf("analytics.tasks.fa.md", text(AnalyticsTasks)),
          Leaf("media.tasks.fa.md", text(MediaTasks)) ]),
      Group(["apps", "mobile"],
        [Leaf("package.json", text(PackageJson)), Leaf("app.json", text(AppJson))]),
      Group(["apps", "mobile", "app"], [Leaf("_layout.tsx", text(LayoutTsx))]),
      Group(["apps", "mobile", "app", "(tabs)"],
        [ Leaf("_layout.tsx", text(TabsLayout)),
          Leaf("index.tsx", text(HomeScreen)),
          Leaf("analytics.tsx", text(AnalyticsScreen)),
          Leaf("settings.tsx", text(SettingsScreen)) ]),
      Group(["apps", "mobile", "app", "task"],
        [Leaf("new.tsx", text(TaskNew)), Leaf("[id].tsx", text(TaskDetail))]),
      Group(["apps", "mobile", "src", "boot"], [Leaf("boot.ts", text(BootPlaceholder))]),
      Group(["apps", "mobile", "src", "config"],
        [Leaf("env.ts", text(EnvTs)), Leaf("app.ts", text(AppConfigTs))]),
      Group(["apps", "mobile", "src", "lib"],
        [Leaf("deps.ts", text(DepsTs)), Leaf("i18n.ts", text(I18nTs))]),
      Group(["apps", "mobile", "src", "design"],
        [Leaf("theme.ts", text(ThemeTs)), Leaf("ui-rules.fa.md", text(UiRulesFa))]),
      Group(["apps", "mobile", "src", "design", "tokens"],
        [ Leaf("colors.ts", text(ColorsTs)),
          Leaf("typography.ts", text(TypographyTs)),
          Leaf("spacing.ts", text(SpacingTs)),
          Leaf("radius.ts", text(RadiusTs)),
          Leaf("shadows.ts", text(ShadowsTs)) ]),
      Group(["apps", "mobile", "src", "domain"], [Leaf(Marker, "")]),
      Group(["apps", "mobile", "src", "data"], [Leaf(Marker, "")]),
      Group(["apps", "mobile", "src", "state"], [Leaf(Marker, "")]),
      Group(["apps", "mobile", "src", "components"], [Leaf(Marker, "")]),
      Group(["apps", "mobile", "src", "assets", "fonts"], [Leaf(Marker, "")]) ]
  }

  /** `build_structure(root)`: the table flattened into (path, content)
      pairs, in the order of the source. It holds 45 pairwise distinct
      paths, each strictly under `root`, none an ancestor of another, so
      that writing them in any order makes 45 files. */
  function BuildStructure(root: Path, text: Template -> string): (r: seq<Entry>)
    ensures |r| == 45
    ensures Distinct(PathsOf(r))
    ensures PrefixFree(PathsOf(r))
    ensures forall i :: 0 <= i < |r| ==> FileShaped(root, r[i].path)
  {
    LayoutGroupsOk(text);
    LayoutDirsDistinct(text);
    FlattenWellFormed(root, Layout(text));
    Flatten(root, Layout(text))
  }

  /** The entries of the table's 19 groups, one group after another. */
  function Flatten(root: Path, l: seq<Group>): seq<Entry>
    requires |l| == 19
  {
    Under(root, l[0]) + Under(root, l[1]) + Under(root, l[2]) + Under(root, l[3])
    + Under(root, l[4]) + Under(root, l[5]) + Under(root, l[6]) + Under(root, l[7])
    + Under(root, l[8]) + Under(root, l[9]) + Under(root, l[10]) + Under(root, l[11])
    + Under(root, l[12]) + Under(root, l[13]) + Under(root, l[14]) + Under(root, l[15])
    + Under(root, l[16]) + Under(root, l[17]) + Under(root, l[18])
  }

  /** The directories of `ensure_empty_dirs`, relative to the root. */
  const ExtraTails: seq<seq<string>> :=
    [ ["apps", "mobile", "src", "data", "db"],
      ["apps", "mobile", "src", "data", "notifications"],
      ["apps", "mobile", "src", "data", "repositories"],
      ["apps", "mobile", "src", "domain", "entities"],
      ["apps", "mobile", "src", "domain", "rules"],
      ["apps", "mobile", "src", "domain", "usecases"] ]

  /** No name in them has a dot. */
  lemma ExtraTailsPlain()
    ensures |ExtraTails| == 6
    ensures forall i, k :: 0 <= i < 6 && 0 <= k < |ExtraTails[i]| ==> NoDot(ExtraTails[i][k])
  {
  }

  /** The six directories `ensure_empty_dirs(root)` makes. Each lies under
      `root` with no dotted name, and its marker is file-shaped, so no file
      of the manifest lies on its way. */
  function ExtraDirs(root: Path): (r: seq<Path>)
    ensures |r| == 6
    ensures forall i :: 0 <= i < |r| ==> DirShaped(root, r[i]) && FileShaped(root, Child(r[i], Marker))
  {
    ExtraTailsPlain();
    var r := seq(6, i requires 0 <= i < 6 => root + ExtraTails[i]);
    assert forall i :: 0 <= i < 6 ==> DirShaped(root, r[i]) && FileShaped(root, Child(r[i], Marker)) by {
      forall i | 0 <= i < 6 ensures DirShaped(root, r[i]) && FileShaped(root, Child(r[i], Marker)) {
        PlainDirShaped(root, ExtraTails[i]);
      }
    }
    r
  }

  // Every file name of the manifest has a dot in it and no directory name
  // below the root has one; this is what keeps one manifest path from
  // being an ancestor of another.

  predicate HasDot(name: string) { '.' in name }

  predicate NoDot(name: string) { '.' !in name }

  /** A file path under `root` whose directories below the root have no dot
      in their names and whose own name has one. */
  predicate FileShaped(root: Path, p: Path)
  {
    && root < p
    && (forall k :: |root| <= k < |p| - 1 ==> NoDot(p[k]))
    && HasDot(p[|p| - 1])
  }

  /** A directory at or under `root` none of whose names below the root has
      a dot. */
  predicate DirShaped(root: Path, x: Path)
  {
    root <= x && forall k :: |root| <= k < |x| ==> NoDot(x[k])
  }

  /** A file-shaped path is never an ancestor of, nor the same as, a
      directory-shaped one. */
  lemma FileNotOnDir(root: Path, p: Path, x: Path)
    requires FileShaped(root, p) && DirShaped(root, x)
    ensures !(p <= x)
  {
  }

  /** A file-shaped path is never a strict ancestor of another. */
  lemma FileNotOnFile(root: Path, p: Path, q: Path)
    requires FileShaped(root, p) && FileShaped(root, q)
    ensures !(p < q)
  {
  }

  /** The directory of a file path, relative to the root. */
  function DirOf(root: Path, p: Path): seq<string>
    requires |root| < |p|
  {
    p[|root|..|p| - 1]
  }

  /** What each group of the table satisfies. */
  predicate GroupOk(g: Group)
  {
    && (forall k :: 0 <= k < |g.dir| ==> NoDot(g.dir[k]))
    && (forall i :: 0 <= i < |g.leaves| ==> HasDot(g.leaves[i].name))
    && (forall i, j :: 0 <= i < j < |g.leaves| ==> g.leaves[i].name != g.leaves[j].name)
  }

  /** What the entries joined so far satisfy: distinct, file-shaped paths,
      whose directories are the ones in `ds`. */
  predicate Joined(root: Path, s: seq<Entry>, ds: set<seq<string>>)
  {
    && Distinct(PathsOf(s))
    && (forall i :: 0 <= i < |s| ==> FileShaped(root, s[i].path) && DirOf(root, s[i].path) in ds)
  }

  /** Appending the entries of a group in a directory not seen before keeps
      the paths distinct and file-shaped. */
  lemma Join(root: Path, s: seq<Entry>, ds: set<seq<string>>, g: Group)
    returns (s': seq<Entry>, ds': set<seq<string>>)
    requires Joined(root, s, ds) && GroupOk(g) && g.dir !in ds
    ensures s' == s + Under(root, g) && ds' == ds + {g.dir}
    ensures Joined(root, s', ds')
  {
    s', ds' := s + Under(root, g), ds + {g.dir};
    var u := Under(root, g);
    forall i | 0 <= i < |u|
      ensures FileShaped(root, u[i].path) && DirOf(root, u[i].path) == g.dir
    {
      assert u[i].path[|root|..|u[i].path| - 1] == g.dir;
    }
    forall i, j | 0 <= i < j < |s'| ensures PathsOf(s')[i] != PathsOf(s')[j] {
      if j >= |s| && i < |s| {
        assert DirOf(root, s'[i].path) in ds;
        assert DirOf(root, s'[j].path) == g.dir;
      } else if i >= |s| {
        assert s'[i].path[|s'[i].path| - 1] == g.leaves[i - |s|].name;
        assert s'[j].path[|s'[j].path| - 1] == g.leaves[j - |s|].name;
      } else {
        assert s'[i] == s[i] && s'[j] == s[j];
        assert PathsOf(s)[i] != PathsOf(s)[j];
      }
    }
  }

  // The facts below are read off the table itself: its directory names have
  // no dot, its file names have one, and no name or directory repeats.

  /** No directory name of the table has a dot in it. */
  lemma LayoutDirNamesFront(text: Template -> string)
    ensures |Layout(text)| == 19
    ensures forall k, c :: 0 <= k < 10 && 0 <= c < |Layout(text)[k].dir| ==> NoDot(Layout(text)[k].dir[c])
  {
  }

  lemma LayoutDirNamesBack(text: Template -> string)
    ensures |Layout(text)| == 19
    ensures forall k, c :: 10 <= k < 19 && 0 <= c < |Layout(text)[k].dir| ==> NoDot(Layout(text)[k].dir[c])
  {
  }

  /** Every file name of the table has a dot in it. */
  lemma LayoutFileNamesFront(text: Template -> string)
    ensures |Layout(text)| == 19
    ensures forall k, i :: 0 <= k < 5 && 0 <= i < |Layout(text)[k].leaves| ==> HasDot(Layout(text)[k].leaves[i].name)
  {
  }

  lemma LayoutFileNamesMiddle(text: Template -> string)
    ensures |Layout(text)| == 19
    ensures forall k, i :: 5 <= k < 10 && 0 <= i < |Layout(text)[k].leaves| ==> HasDot(Layout(text)[k].leaves[i].name)
  {
  }

  lemma LayoutFileNamesBack(text: Template -> string)
    ensures |Layout(text)| == 19
    ensures forall k, i :: 10 <= k < 19 && 0 <= i < |Layout(text)[k].leaves| ==> HasDot(Layout(text)[k].leaves[i].name)
  {
  }

  /** Within a directory of the table, no file name repeats. */
  lemma LayoutFileNamesDistinctFront(text: Template -> string)
    ensures |Layout(text)| == 19
    ensures forall k, i, j :: 0 <= k < 10 && 0 <= i < j < |Layout(text)[k].leaves| ==>
              Layout(text)[k].leaves[i].name != Layout(text)[k].leaves[j].name
  {
  }

  lemma LayoutFileNamesDistinctBack(text: Template -> string)
    ensures |Layout(text)| == 19
    ensures forall k, i, j :: 10 <= k < 19 && 0 <= i < j < |Layout(text)[k].leaves| ==>
              Layout(text)[k].leaves[i].name != Layout(text)[k].leaves[j].name
  {
  }

  /** Every group of the table is well formed. */
  lemma LayoutGroupsOk(text: Template -> string)
    ensures |Layout(text)| == 19
    ensures forall k :: 0 <= k < 19 ==> GroupOk(Layout(text)[k])
  {
    LayoutDirNamesFront(text);
    LayoutDirNamesBack(text);
    LayoutFileNamesFront(text);
    LayoutFileNamesMiddle(text);
    LayoutFileNamesBack(text);
    LayoutFileNamesDistinctFront(text);
    LayoutFileNamesDistinctBack(text);
  }

  /** No directory appears in two groups of the table. */
  lemma LayoutDirsDistinct(text: Template -> string)
    ensures |Layout(text)| == 19
    ensures forall k, j :: 0 <= k < j < 19 ==> Layout(text)[k].dir != Layout(text)[j].dir
  {
    LayoutDirsDistinctFront(text);
    LayoutDirsDistinctAcross(text);
    LayoutDirsDistinctBack(text);
  }

  lemma LayoutDirsDistinctFront(text: Template -> string)
    ensures |Layout(text)| == 19
    ensures forall k, j :: 0 <= k < j < 10 ==> Layout(text)[k].dir != Layout(text)[j].dir
  {
  }

  lemma LayoutDirsDistinctAcross(text: Template -> string)
    ensures |Layout(text)| == 19
    ensures forall k, j :: 0 <= k < 10 <= j < 19 ==> Layout(text)[k].dir != Layout(text)[j].dir
  {
  }

  lemma LayoutDirsDistinctBack(text: Template -> string)
    ensures |Layout(text)| == 19
    ensures forall k, j :: 10 <= k < j < 19 ==> Layout(text)[k].dir != Layout(text)[j].dir
  {
  }

  /** The entries of any list of groups, one group after another. */
  function Concat(root: Path, l: seq<Group>): seq<Entry>
    decreases |l|
  {
    if l == [] then [] else Concat(root, l[..|l| - 1]) + Under(root, l[|l| - 1])
  }

  /** The directories of a list of groups. */
  function DirsOf(l: seq<Group>): set<seq<string>>
  {
    set k | 0 <= k < |l| :: l[k].dir
  }

  /** Well-formed groups in pairwise distinct directories concatenate to
      distinct, file-shaped paths. */
  lemma {:induction false} ConcatWellFormed(root: Path, l: seq<Group>)
    requires forall k :: 0 <= k < |l| ==> GroupOk(l[k])
    requires forall k, j :: 0 <= k < j < |l| ==> l[k].dir != l[j].dir
    ensures Joined(root, Concat(root, l), DirsOf(l))
    decreases |l|
  {
    if l != [] {
      var front := l[..|l| - 1];
      ConcatWellFormed(root, front);
      assert DirsOf(l) == DirsOf(front) + {l[|l| - 1].dir};
      var s', ds' := Join(root, Concat(root, front), DirsOf(front), l[|l| - 1]);
    }
  }

  /** One step of Concat on a prefix of a list. */
  lemma ConcatTake(root: Path, l: seq<Group>, k: nat)
    requires 0 < k <= |l|
    ensures Concat(root, l[..k]) == Concat(root, l[..k - 1]) + Under(root, l[k - 1])
  {
    assert l[..k][..k - 1] == l[..k - 1];
  }

  /** The table's explicit flattening is Concat of its groups. */
  lemma FlattenIsConcat(root: Path, l: seq<Group>)
    requires |l| == 19
    ensures Flatten(root, l) == Concat(root, l)
  {
    assert l[..0] == [];
    ConcatTake(root, l, 1);
    assert [] + Under(root, l[0]) == Under(root, l[0]);
    ConcatTake(root, l, 2);
    ConcatTake(root, l, 3);
    ConcatTake(root, l, 4);
    ConcatTake(root, l, 5);
    ConcatTake(root, l, 6);
    ConcatTake(root, l, 7);
    ConcatTake(root, l, 8);
    ConcatTake(root, l, 9);
    ConcatTake(root, l, 10);
    ConcatTake(root, l, 11);
    ConcatTake(root, l, 12);
    ConcatTake(root, l, 13);
    ConcatTake(root, l, 14);
    ConcatTake(root, l, 15);
    ConcatTake(root, l, 16);
    ConcatTake(root, l, 17);
    ConcatTake(root, l, 18);
    ConcatTake(root, l, 19);
    assert l[..19] == l;
  }

  /** Where two entries of the flattened table come from, given the group
      sizes. */
  lemma FlattenAt(root: Path, l: seq<Group>)
    requires |l| == 19
    requires forall k :: 0 <= k < 19 ==> |l[k].leaves| == GroupSizes[k]
    ensures |Flatten(root, l)| == 45
    ensures Flatten(root, l)[9] == Under(root, l[3])[0]
    ensures Flatten(root, l)[34] == Under(root, l[12])[1]
  {
  }

  /** Flattening 19 well-formed groups of the table's sizes, in pairwise
      distinct directories, gives 45 distinct paths that each name a file,
      none an ancestor of another. */
  lemma FlattenWellFormed(root: Path, l: seq<Group>)
    requires |l| == 19
    requires forall k :: 0 <= k < 19 ==> |l[k].leaves| == GroupSizes[k]
    requires forall k :: 0 <= k < 19 ==> GroupOk(l[k])
    requires forall k, j :: 0 <= k < j < 19 ==> l[k].dir != l[j].dir
    ensures var m := Flatten(root, l);
      && |m| == 45
      && Distinct(PathsOf(m))
      && PrefixFree(PathsOf(m))
      && forall i :: 0 <= i < |m| ==> FileShaped(root, m[i].path)
  {
    FlattenAt(root, l);
    FlattenIsConcat(root, l);
    ConcatWellFormed(root, l);
    var s := Flatten(root, l);
    forall i, j | 0 <= i < |s| && 0 <= j < |s| ensures !(PathsOf(s)[i] < PathsOf(s)[j]) {
      FileNotOnFile(root, s[i].path, s[j].path);
    }
  }

  /** Two manifest paths share one content: the Persian UI rules are written
      both under specs/rules and under the design folder. */
  lemma UiRulesWrittenTwice(root: Path, text: Template -> string)
    ensures var m := BuildStructure(root, text);
      && |m| == 45
      && m[9].path == root + ["specs", "rules", "ui.rules.fa.md"]
      && m[34].path == root + ["apps", "mobile", "src", "design", "ui-rules.fa.md"]
      && m[9].path != m[34].path
      && m[9].content == m[34].content == text(UiRulesFa)
  {
    var l := Layout(text);
    FlattenAt(root, l);
    assert l[3].dir + [l[3].leaves[0].name] != l[12].dir + [l[12].leaves[1].name];
  }

  /** A directory below `root` whose names have no dot is directory-shaped,
      and a marker in it is file-shaped. */
  lemma PlainDirShaped(root: Path, tail: seq<string>)
    requires forall k :: 0 <= k < |tail| ==> NoDot(tail[k])
    ensures DirShaped(root, root + tail)
    ensures FileShaped(root, Child(root + tail, Marker))
  {
    var x := root + tail;
    assert forall k :: |root| <= k < |x| ==> x[k] == tail[k - |root|];
    assert HasDot(Marker) by { assert Marker[0] == '.'; }
  }
}
