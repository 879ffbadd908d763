/**
 * `eval/report.py`: the aggregate report over the run records of a log
 * directory. The records are loaded and filtered, grouped by label and mode,
 * summarised per group for the bash and mcp modes, totalled, and the groups
 * with a win are ranked by the average tokens their winning runs spent.
 *
 * Averages and percentages are kept as exact (sum, count) pairs; the report's
 * output is the values it would print.
 */
module Report {
  import opened Wrappers
  import opened Text
  import opened Ordering

  // ---------------------------------------------------------------------------
  // loading

  /** A JSON value of a record field, as far as the report reads it. */
  datatype Field = Str(s: string) | Int(n: int) | Bool(b: bool)

  /** A record: a JSON object, by key. */
  type Document = map<string, Field>

  /** A file of the log directory: its name and, when it decodes, its object. */
  datatype LogFile = LogFile(name: string, parsed: Option<Document>)

  /** `load_runs` keeps a file whose name ends in ".json", that decodes, and
      that has the keys "model", "mode" and "total_tokens". */
  predicate Keeps(f: LogFile) {
    && EndsWith(f.name, ".json") && f.parsed.Some?
    && "model" in f.parsed.value && "mode" in f.parsed.value && "total_tokens" in f.parsed.value
  }

  /** A kept record, with the name of its file added under "_file". */
  function Tagged(f: LogFile): Document
    requires f.parsed.Some?
  {
    f.parsed.value["_file" := Str(f.name)]
  }

  /** The records `load_runs` returns, in the order of the listing. */
  function Kept(files: seq<LogFile>): (runs: seq<Document>)
    ensures |runs| <= |files|
    ensures forall i :: 0 <= i < |runs| ==>
              "model" in runs[i] && "mode" in runs[i] && "total_tokens" in runs[i] && "_file" in runs[i]
  {
    if files == [] then []
    else Kept(files[..|files| - 1]) + (if Keeps(files[|files| - 1]) then [Tagged(files[|files| - 1])] else [])
  }

  /** `load_runs`: one pass over the listing; a file that is not valid JSON is
      skipped, not fatal. */
  method LoadRuns(files: seq<LogFile>) returns (runs: seq<Document>)
    ensures runs == Kept(files)
  {
    runs := [];
    for i := 0 to |files|
      invariant runs == Kept(files[..i])
    {
      assert files[..i + 1][..i] == files[..i];
      var f := files[i];
      if EndsWith(f.name, ".json") {
        match f.parsed
        case None =>
        case Some(data) =>
          if "model" in data && "mode" in data && "total_tokens" in data {
            runs := runs + [data["_file" := Str(f.name)]];
          }
      }
    }
    assert files[..|files|] == files;
  }

  /** The listing is filtered file by file. */
  lemma {:induction false} KeptAppend(a: seq<LogFile>, b: seq<LogFile>)
    ensures Kept(a + b) == Kept(a) + Kept(b)
    decreases |b|
  {
    if b == [] {
      assert a + b == a;
    } else {
      assert (a + b)[..|a + b| - 1] == a + b[..|b| - 1];
      KeptAppend(a, b[..|b| - 1]);
    }
  }

  /** A record is loaded exactly when its file passes the filter. */
  lemma {:induction false} KeptIff(files: seq<LogFile>)
    ensures forall i :: 0 <= i < |files| && Keeps(files[i]) ==> Tagged(files[i]) in Kept(files)
    ensures forall d :: d in Kept(files) ==> exists i :: 0 <= i < |files| && Keeps(files[i]) && d == Tagged(files[i])
    decreases |files|
  {
    if files != [] {
      var init := files[..|files| - 1];
      KeptIff(init);
      forall i | 0 <= i < |files| - 1 ensures files[i] == init[i] { }
    }
  }

  // ---------------------------------------------------------------------------
  // labels

  /** `model_label`: the part of the model name after its last "/", or the
      whole name when it has none. */
  function ModelLabel(model: string): (short: string)
    ensures '/' !in short
    ensures |short| <= |model| && short == model[|model| - |short|..]
    ensures |short| < |model| ==> model[|model| - |short| - 1] == '/'
  {
    AfterLast(model, '/')
  }

  /** The label of a routed model name is its last segment, and a name without
      a "/" is its own label. */
  lemma ModelLabelOfPath(route: string, name: string)
    requires '/' !in name
    ensures ModelLabel(route + "/" + name) == name
    ensures ModelLabel(name) == name
  {
    AfterLastOfJoin(route, '/', name);
  }

  /** `pretty_label`: dashes and underscores become spaces, then every word is
      capitalised: its first letter upper-cased, the others lower-cased. */
  function PrettyLabel(name: string): (pretty: string)
    ensures |pretty| == |name|
    ensures forall i :: 0 <= i < |name| ==> (pretty[i] == ' ' <==> name[i] in " -_")
    ensures forall i :: 0 <= i < |name| ==> IsCased(pretty[i]) == IsCased(name[i])
    ensures forall i :: 0 <= i < |name| && IsCased(name[i]) ==>
              (pretty[i] == UpperChar(name[i]) <==> i == 0 || !IsCased(name[i - 1]))
    ensures forall i :: 0 < i < |name| && IsCased(name[i]) && IsCased(name[i - 1]) ==>
              pretty[i] == LowerChar(name[i])
    ensures forall i :: 0 <= i < |name| && !IsCased(name[i]) && name[i] != '-' && name[i] != '_' ==>
              pretty[i] == name[i]
  {
    var spaced := ReplaceChar(ReplaceChar(name, '-', ' '), '_', ' ');
    TitleCases(spaced);
    Title(spaced)
  }

  /** A pretty label is already pretty. */
  lemma PrettyLabelIdempotent(name: string)
    ensures PrettyLabel(PrettyLabel(name)) == PrettyLabel(name)
  {
    var p := PrettyLabel(name);
    var q := PrettyLabel(p);
    forall i | 0 <= i < |p| ensures q[i] == p[i] {
    }
  }

  // ---------------------------------------------------------------------------
  // the fields a report reads

  /** Python's truth value of a field, as `if e["won"]` takes it. */
  predicate Truthy(f: Field) {
    match f
    case Str(s) => s != []
    case Int(n) => n != 0
    case Bool(b) => b
  }

  /** A field as a number for `sum`, `min` and `max`: a boolean counts as 0 or 1,
      text is not a number. */
  function Number(f: Field): Option<int> {
    match f
    case Str(_) => None
    case Int(n) => Some(n)
    case Bool(b) => Some(if b then 1 else 0)
  }

  /** What the report reads of one record: its group's label and mode, whether
      it won, its tokens, and its turns when it has them as a number. */
  datatype Run = Run(name: string, mode: string, won: bool, tokens: int, turns: Option<int>)

  /** The record as `generate_report` reads it. `model_label(r["model"])` is
      evaluated even when the record has a label. A record it cannot read
      stops the report. */
  function ReadRun(d: Document): (r: Option<Run>)
    ensures "model" !in d || "mode" !in d || "won" !in d || "total_tokens" !in d ==> r.None?
    ensures r.Some? <==> && "model" in d && d["model"].Str? && "mode" in d && d["mode"].Str?
                         && ("label" in d ==> d["label"].Str?)
                         && "won" in d && "total_tokens" in d && Number(d["total_tokens"]).Some?
    ensures r.Some? ==> && d["model"].Str? && d["mode"].Str?
                        && ("label" in d ==> d["label"].Str?)
                        && Number(d["total_tokens"]) == Some(r.value.tokens)
    ensures r.Some? ==> && r.value.name == (if "label" in d then d["label"].s else ModelLabel(d["model"].s))
                        && r.value.mode == d["mode"].s
                        && r.value.won == Truthy(d["won"])
                        && r.value.turns == (if "turns" in d then Number(d["turns"]) else None)
  {
    if "model" !in d || !d["model"].Str? then None
    else
      var given := if "label" in d then d["label"] else Str(ModelLabel(d["model"].s));
      if !given.Str? || "mode" !in d || !d["mode"].Str? || "won" !in d then None
      else if "total_tokens" !in d || Number(d["total_tokens"]).None? then None
      else Some(Run(given.s, d["mode"].s, Truthy(d["won"]), Number(d["total_tokens"]).value,
                    if "turns" in d then Number(d["turns"]) else None))
  }

  /** Every record can be read. */
  predicate Readable(docs: seq<Document>) {
    forall i :: 0 <= i < |docs| ==> ReadRun(docs[i]).Some?
  }

  /** The records, read. */
  function ReadAll(docs: seq<Document>): (runs: seq<Run>)
    requires Readable(docs)
  {
    seq(|docs|, i requires 0 <= i < |docs| => ReadRun(docs[i]).value)
  }

  // ---------------------------------------------------------------------------
  // grouping

  /** A group: a label and a mode. */
  datatype Key = Key(name: string, mode: string)

  function KeyOf(r: Run): Key {
    Key(r.name, r.mode)
  }

  predicate Distinct<T(==)>(s: seq<T>) {
    forall i, j :: 0 <= i < j < |s| ==> s[i] != s[j]
  }

  /** The groups of `runs`, each once, in the order they first occur (the order
      of the `grouped` dictionary). */
  function Keys(runs: seq<Run>): (keys: seq<Key>)
    ensures |keys| <= |runs|
  {
    if runs == [] then []
    else
      var init := Keys(runs[..|runs| - 1]);
      var k := KeyOf(runs[|runs| - 1]);
      if k in init then init else init + [k]
  }

  /** The runs of the group `k`, in order. */
  function Members(runs: seq<Run>, k: Key): (m: seq<Run>)
    ensures |m| <= |runs|
  {
    if runs == [] then []
    else Members(runs[..|runs| - 1], k) + (if KeyOf(runs[|runs| - 1]) == k then [runs[|runs| - 1]] else [])
  }

  /** Every run's group is listed once, and only the groups of runs are; a
      listed group has members, and they are the runs with its label and mode. */
  lemma {:induction false} KeysIff(runs: seq<Run>)
    ensures Distinct(Keys(runs))
    ensures forall i :: 0 <= i < |runs| ==> KeyOf(runs[i]) in Keys(runs)
    ensures forall k :: k in Keys(runs) <==> Members(runs, k) != []
    ensures forall k, i :: 0 <= i < |Members(runs, k)| ==> KeyOf(Members(runs, k)[i]) == k
    decreases |runs|
  {
    if runs != [] {
      var init := runs[..|runs| - 1];
      KeysIff(init);
      forall i | 0 <= i < |runs| - 1 ensures runs[i] == init[i] { }
    }
  }

  /** The grouping loop: every run is appended to its group's list. */
  method GroupRuns(runs: seq<Run>) returns (grouped: map<Key, seq<Run>>, order: seq<Key>)
    ensures order == Keys(runs)
    ensures forall k :: k in grouped <==> k in order
    ensures forall k :: k in grouped ==> grouped[k] == Members(runs, k)
  {
    grouped, order := map[], [];
    for i := 0 to |runs|
      invariant order == Keys(runs[..i])
      invariant forall k :: k in grouped <==> k in order
      invariant forall k :: k in grouped ==> grouped[k] == Members(runs[..i], k)
      invariant forall k :: k !in grouped ==> Members(runs[..i], k) == []
    {
      assert runs[..i + 1][..i] == runs[..i];
      var key := KeyOf(runs[i]);
      if key in grouped {
        grouped := grouped[key := grouped[key] + [runs[i]]];
      } else {
        grouped := grouped[key := [runs[i]]];
        order := order + [key];
      }
    }
    assert runs[..|runs|] == runs;
  }


  /** A run is among the members of its own group. */
  lemma {:induction false} MemberOfOwnGroup(runs: seq<Run>, i: nat)
    requires i < |runs|
    ensures runs[i] in Members(runs, KeyOf(runs[i]))
    decreases |runs|
  {
    var init := runs[..|runs| - 1];
    if i < |runs| - 1 {
      assert runs[i] == init[i];
      MemberOfOwnGroup(init, i);
    }
  }

  /** Every readable record falls into exactly one group: the one keyed by its
      "label", or by the label of its "model" when it has none, and its "mode". */
  lemma RecordGroup(docs: seq<Document>, i: nat)
    requires Readable(docs) && i < |docs|
    ensures "model" in docs[i] && docs[i]["model"].Str? && "mode" in docs[i] && docs[i]["mode"].Str?
    ensures "label" in docs[i] ==> docs[i]["label"].Str?
    ensures var k := Key(if "label" in docs[i] then docs[i]["label"].s else ModelLabel(docs[i]["model"].s),
                         docs[i]["mode"].s);
            && KeyOf(ReadAll(docs)[i]) == k
            && k in Keys(ReadAll(docs))
            && ReadAll(docs)[i] in Members(ReadAll(docs), k)
            && forall g :: g in Keys(ReadAll(docs)) && ReadAll(docs)[i] in Members(ReadAll(docs), g) ==> g == k
  {
    var runs := ReadAll(docs);
    assert ReadRun(docs[i]).Some?;
    KeysIff(runs);
    MemberOfOwnGroup(runs, i);
  }

  // ---------------------------------------------------------------------------
  // statistics

  /** What a sequence of runs adds up to: how many, how many won, the sum,
      minimum and maximum of their tokens, and the sum of their turns. */
  datatype Stats = Stats(n: nat, wins: nat, tokenSum: int, minTokens: Option<int>, maxTokens: Option<int>, turnSum: int)

  const NoStats := Stats(0, 0, 0, None, None, 0)

  function Least(a: Option<int>, b: Option<int>): Option<int> {
    if a.None? then b else if b.None? then a else Some(if a.value <= b.value then a.value else b.value)
  }

  function Most(a: Option<int>, b: Option<int>): Option<int> {
    if a.None? then b else if b.None? then a else Some(if a.value >= b.value then a.value else b.value)
  }

  /** The statistics of two sequences of runs, put together. */
  function Merge(x: Stats, y: Stats): Stats {
    Stats(x.n + y.n, x.wins + y.wins, x.tokenSum + y.tokenSum,
          Least(x.minTokens, y.minTokens), Most(x.maxTokens, y.maxTokens), x.turnSum + y.turnSum)
  }

  function One(r: Run): Stats {
    Stats(1, if r.won then 1 else 0, r.tokens, Some(r.tokens), Some(r.tokens), r.turns.GetOr(0))
  }

  /** A group's row: `n`, `wins`, the tokens' sum, `min_tok` and `max_tok`, and
      the turns' sum (the averages are these sums over `n`). */
  function StatsOf(runs: seq<Run>): (st: Stats)
    ensures st.n == |runs| && st.wins <= st.n
    ensures st.minTokens.None? <==> runs == []
    ensures st.maxTokens.None? <==> runs == []
  {
    if runs == [] then NoStats else Merge(StatsOf(runs[..|runs| - 1]), One(runs[|runs| - 1]))
  }

  /** `min_tok` and `max_tok` are the least and the greatest of the tokens. */
  lemma {:induction false} TokenBounds(runs: seq<Run>)
    requires runs != []
    ensures var st := StatsOf(runs);
            && (forall i :: 0 <= i < |runs| ==> st.minTokens.value <= runs[i].tokens <= st.maxTokens.value)
            && (exists i :: 0 <= i < |runs| && runs[i].tokens == st.minTokens.value)
            && (exists i :: 0 <= i < |runs| && runs[i].tokens == st.maxTokens.value)
    decreases |runs|
  {
    var init := runs[..|runs| - 1];
    if init != [] {
      TokenBounds(init);
      forall i | 0 <= i < |init| ensures runs[i] == init[i] { }
    }
  }

  /** The average lies between the minimum and the maximum:
      `min_tok <= avg_tok <= max_tok`, with `avg_tok` the sum over `n`. */
  lemma {:induction false} AverageBetween(runs: seq<Run>)
    requires runs != []
    ensures var st := StatsOf(runs);
            st.minTokens.value * st.n <= st.tokenSum <= st.maxTokens.value * st.n
    decreases |runs|
  {
    var init := runs[..|runs| - 1];
    if init != [] {
      AverageBetween(init);
      var st := StatsOf(init);
      var t := runs[|runs| - 1].tokens;
      var lo := StatsOf(runs).minTokens.value;
      var hi := StatsOf(runs).maxTokens.value;
      assert lo <= st.minTokens.value && lo <= t && st.maxTokens.value <= hi && t <= hi;
      Between(lo, st.minTokens.value, st.tokenSum, st.maxTokens.value, hi, st.n, t);
    }
  }

  /** One more value between `lo` and `hi` keeps a sum of `n` values between
      `lo * n` and `hi * n`. */
  lemma Between(lo: int, m: int, sum: int, mx: int, hi: int, n: nat, t: int)
    requires lo <= m && mx <= hi && lo <= t <= hi
    requires m * n <= sum <= mx * n
    ensures lo * (n + 1) <= sum + t <= hi * (n + 1)
  {
    assert lo * n <= m * n;
    assert mx * n <= hi * n;
    assert lo * (n + 1) == lo * n + lo;
    assert hi * (n + 1) == hi * n + hi;
  }

  lemma MergeNoStats(x: Stats)
    ensures Merge(x, NoStats) == x
  {
  }

  lemma MergeAssociative(x: Stats, y: Stats, z: Stats)
    ensures Merge(Merge(x, y), z) == Merge(x, Merge(y, z))
  {
  }

  lemma MergeCommutative(x: Stats, y: Stats)
    ensures Merge(x, y) == Merge(y, x)
  {
  }

  /** Statistics of two sequences put end to end are merged. */
  lemma {:induction false} StatsAppend(a: seq<Run>, b: seq<Run>)
    ensures StatsOf(a + b) == Merge(StatsOf(a), StatsOf(b))
    decreases |b|
  {
    if b == [] {
      assert a + b == a;
      MergeNoStats(StatsOf(a));
    } else {
      var init, x := b[..|b| - 1], b[|b| - 1];
      assert (a + b)[..|a + b| - 1] == a + init && (a + b)[|a + b| - 1] == x;
      StatsAppend(a, init);
      MergeAssociative(StatsOf(a), StatsOf(init), One(x));
      calc {
        StatsOf(a + b);
        Merge(StatsOf(a + init), One(x));
        Merge(Merge(StatsOf(a), StatsOf(init)), One(x));
        Merge(StatsOf(a), Merge(StatsOf(init), One(x)));
        Merge(StatsOf(a), StatsOf(b));
      }
    }
  }

  /** Taking the same element out of two permutations leaves permutations. */
  lemma Cancel(init: seq<Run>, x: Run, left: seq<Run>, right: seq<Run>)
    requires multiset(init + [x]) == multiset(left + [x] + right)
    ensures multiset(init) == multiset(left + right)
  {
    calc {
      multiset(init);
      multiset(init + [x]) - multiset{x};
      multiset(left + [x] + right) - multiset{x};
      multiset(left) + multiset(right);
      multiset(left + right);
    }
  }

  /** A group's statistics do not depend on the order of its records. */
  lemma {:induction false} StatsIgnoreOrder(a: seq<Run>, b: seq<Run>)
    requires multiset(a) == multiset(b)
    ensures StatsOf(a) == StatsOf(b)
    decreases |a|
  {
    if a == [] {
      assert |b| == |multiset(b)| == 0;
    } else {
      var init, x := a[..|a| - 1], a[|a| - 1];
      assert a == init + [x];
      assert x in multiset(b);
      var k :| 0 <= k < |b| && b[k] == x;
      var left, right := b[..k], b[k + 1..];
      assert b == (left + [x]) + right;
      assert (left + [x])[..|left|] == left;
      assert left + [x] + right == b;
      Cancel(init, x, left, right);
      StatsIgnoreOrder(init, left + right);
      StatsAppend(left, right);
      StatsAppend(left + [x], right);
      var sl, sr, sx := StatsOf(left), StatsOf(right), One(x);
      MergeAssociative(sl, sr, sx);
      MergeCommutative(sr, sx);
      MergeAssociative(sl, sx, sr);
    }
  }

  lemma NoStatsMerge(x: Stats)
    ensures Merge(NoStats, x) == x
  {
  }

  /** The statistics of the groups listed in `keys`, merged. */
  function GroupsMerged(runs: seq<Run>, keys: seq<Key>): Stats {
    if keys == [] then NoStats
    else Merge(GroupsMerged(runs, keys[..|keys| - 1]), StatsOf(Members(runs, keys[|keys| - 1])))
  }

  /** One more run adds itself to its group's statistics, if its group is listed. */
  lemma {:induction false} GroupsStep(init: seq<Run>, x: Run, keys: seq<Key>)
    requires Distinct(keys)
    ensures GroupsMerged(init + [x], keys) ==
              if KeyOf(x) in keys then Merge(GroupsMerged(init, keys), One(x)) else GroupsMerged(init, keys)
    decreases |keys|
  {
    if keys != [] {
      var runs := init + [x];
      var front, k := keys[..|keys| - 1], keys[|keys| - 1];
      assert runs[..|runs| - 1] == init;
      GroupsStep(init, x, front);
      assert Distinct(front) by { assert forall i :: 0 <= i < |front| ==> front[i] == keys[i]; }
      var g, mi := GroupsMerged(init, front), Members(init, k);
      if k == KeyOf(x) {
        assert Members(runs, k) == mi + [x];
        assert (mi + [x])[..|mi|] == mi;
        assert StatsOf(mi + [x]) == Merge(StatsOf(mi), One(x));
        assert KeyOf(x) !in front;
        MergeAssociative(g, StatsOf(mi), One(x));
      } else {
        assert Members(runs, k) == mi;
        if KeyOf(x) in front {
          MergeAssociative(g, One(x), StatsOf(mi));
          MergeCommutative(One(x), StatsOf(mi));
          MergeAssociative(g, StatsOf(mi), One(x));
        }
      }
    }
  }

  /** The groups partition the runs: their statistics merged are those of all
      runs, so the group sizes add up to the number of runs, their wins to the
      total wins and their tokens to the total tokens. */
  lemma {:induction false} GroupsPartition(runs: seq<Run>)
    ensures GroupsMerged(runs, Keys(runs)) == StatsOf(runs)
    decreases |runs|
  {
    if runs != [] {
      var init, x := runs[..|runs| - 1], runs[|runs| - 1];
      assert runs == init + [x];
      GroupsPartition(init);
      KeysIff(init);
      var keys, kx := Keys(init), KeyOf(x);
      GroupsStep(init, x, keys);
      if kx in keys {
        assert Keys(runs) == keys;
      } else {
        assert Keys(runs) == keys + [kx];
        assert (keys + [kx])[..|keys|] == keys;
        assert Members(init, kx) == [];
        assert Members(runs, kx) == [x];
        assert StatsOf([x]) == One(x) by {
          assert [x][..0] == [];
          NoStatsMerge(One(x));
        }
      }
    }
  }

  // ---------------------------------------------------------------------------
  // the table

  /** The modes the table shows, in its order. */
  const MODES: seq<string> := ["bash", "mcp"]

  /** A row of the table: a group and its statistics. */
  datatype Row = Row(key: Key, stats: Stats)

  /** The rows of the label `name` for the modes `modes`: one per group that
      has runs. */
  function ModeRows(name: string, modes: seq<string>, grouped: map<Key, seq<Run>>): (rows: seq<Row>)
    ensures |rows| <= |modes|
  {
    if modes == [] then []
    else
      var key := Key(name, modes[|modes| - 1]);
      ModeRows(name, modes[..|modes| - 1], grouped) + (if key in grouped then [Row(key, StatsOf(grouped[key]))] else [])
  }

  /** The rows of a label: its bash group's, then its mcp group's. */
  function LabelRows(name: string, grouped: map<Key, seq<Run>>): seq<Row> {
    var bash, mcp := Key(name, "bash"), Key(name, "mcp");
    (if bash in grouped then [Row(bash, StatsOf(grouped[bash]))] else []) +
    (if mcp in grouped then [Row(mcp, StatsOf(grouped[mcp]))] else [])
  }

  lemma ModeRowsOfModes(name: string, grouped: map<Key, seq<Run>>)
    ensures ModeRows(name, MODES, grouped) == LabelRows(name, grouped)
  {
    assert MODES[..1] == ["bash"] && MODES[..1][..0] == [];
  }

  /** The rows of the labels `labels`, label by label. */
  function TableRows(labels: seq<string>, grouped: map<Key, seq<Run>>): seq<Row> {
    if labels == [] then []
    else TableRows(labels[..|labels| - 1], grouped) + ModeRows(labels[|labels| - 1], MODES, grouped)
  }

  /** The table loops: for each label, for each mode, the row of the group, if any. */
  method Table(labels: seq<string>, grouped: map<Key, seq<Run>>) returns (rows: seq<Row>)
    ensures rows == TableRows(labels, grouped)
  {
    rows := [];
    for i := 0 to |labels|
      invariant rows == TableRows(labels[..i], grouped)
    {
      assert labels[..i + 1][..i] == labels[..i];
      for j := 0 to |MODES|
        invariant rows == TableRows(labels[..i], grouped) + ModeRows(labels[i], MODES[..j], grouped)
      {
        assert MODES[..j + 1][..j] == MODES[..j];
        var key := Key(labels[i], MODES[j]);
        if key in grouped {
          rows := rows + [Row(key, StatsOf(grouped[key]))];
        }
      }
      assert MODES[..|MODES|] == MODES;
    }
    assert labels[..|labels|] == labels;
  }

  /** A row is shown exactly for a group of a listed label in a shown mode, and
      it holds that group's statistics. */
  lemma {:induction false} TableIff(labels: seq<string>, grouped: map<Key, seq<Run>>)
    ensures forall r :: r in TableRows(labels, grouped) ==>
              r.key in grouped && r.key.name in labels && r.key.mode in MODES && r.stats == StatsOf(grouped[r.key])
    ensures forall k :: k in grouped && k.name in labels && k.mode in MODES ==>
              Row(k, StatsOf(grouped[k])) in TableRows(labels, grouped)
    decreases |labels|
  {
    if labels != [] {
      var front, name := labels[..|labels| - 1], labels[|labels| - 1];
      TableIff(front, grouped);
      ModeRowsOfModes(name, grouped);
      var rows := TableRows(labels, grouped);
      forall k | k in grouped && k.name in labels && k.mode in MODES
        ensures Row(k, StatsOf(grouped[k])) in rows
      {
        if k.name !in front {
          assert k.name == name;
        }
      }
    }
  }

  /** With the labels sorted, the rows come label by label in that order, and
      bash before mcp within a label. */
  predicate RowBefore(a: Row, b: Row) {
    LexLt(a.key.name, b.key.name) || (a.key.name == b.key.name && a.key.mode == "bash" && b.key.mode == "mcp")
  }

  predicate RowsOrdered(rows: seq<Row>) {
    forall i, j :: 0 <= i < j < |rows| ==> RowBefore(rows[i], rows[j])
  }

  lemma {:induction false} TableOrdered(labels: seq<string>, grouped: map<Key, seq<Run>>)
    requires StrictlySorted(labels)
    ensures RowsOrdered(TableRows(labels, grouped))
    decreases |labels|
  {
    if labels != [] {
      var front, name := labels[..|labels| - 1], labels[|labels| - 1];
      assert StrictlySorted(front) by {
        forall i, j | 0 <= i < j < |front| ensures LexLt(front[i], front[j]) {
          assert front[i] == labels[i] && front[j] == labels[j];
        }
      }
      TableOrdered(front, grouped);
      var a := TableRows(front, grouped);
      forall r | r in a ensures LexLt(r.key.name, name) {
        TableIff(front, grouped);
        var m :| 0 <= m < |front| && front[m] == r.key.name;
        assert front[m] == labels[m];
      }
      ModeRowsOfModes(name, grouped);
      RowsThenLabel(a, name, grouped);
    }
  }

  /** The rows of a later label come after those of the earlier ones. */
  lemma RowsThenLabel(a: seq<Row>, name: string, grouped: map<Key, seq<Run>>)
    requires RowsOrdered(a)
    requires forall r :: r in a ==> LexLt(r.key.name, name)
    ensures RowsOrdered(a + LabelRows(name, grouped))
  {
    var b := LabelRows(name, grouped);
    assert forall r :: r in b ==> r.key.name == name;
    assert |b| == 2 ==> b[0].key.mode == "bash" && b[1].key.mode == "mcp";
    var rows := a + b;
    forall i, j | 0 <= i < j < |rows| ensures RowBefore(rows[i], rows[j]) {
      if j < |a| {
        assert rows[i] == a[i] && rows[j] == a[j];
      } else if i < |a| {
        assert rows[i] in a && rows[j] in b;
      } else {
        assert rows[i] == b[i - |a|] && rows[j] == b[j - |a|];
      }
    }
  }

  // ---------------------------------------------------------------------------
  // the leaderboard

  /** A leaderboard entry `(avg, label, mode, wins)`, with `avg` the tokens of
      the winning runs, `tokenSum`, over `wins`. */
  datatype Place = Place(tokenSum: int, wins: nat, name: string, mode: string)

  /** The winning runs, in order. */
  function Winners(runs: seq<Run>): (w: seq<Run>)
    ensures |w| <= |runs|
    ensures (w == []) <==> forall i :: 0 <= i < |runs| ==> !runs[i].won
  {
    if runs == [] then []
    else Winners(runs[..|runs| - 1]) + (if runs[|runs| - 1].won then [runs[|runs| - 1]] else [])
  }

  /** The entry of a group, when it has a winner. */
  function PlaceOf(k: Key, entries: seq<Run>): Option<Place> {
    var w := Winners(entries);
    if w == [] then None else Some(Place(StatsOf(w).tokenSum, |w|, k.name, k.mode))
  }

  /** The entries of the groups `keys`, in that order. */
  function Candidates(keys: seq<Key>, grouped: map<Key, seq<Run>>): seq<Place>
    requires forall k :: k in keys ==> k in grouped
  {
    if keys == [] then []
    else
      var k := keys[|keys| - 1];
      Candidates(keys[..|keys| - 1], grouped) + (match PlaceOf(k, grouped[k]) case None => [] case Some(p) => [p])
  }

  /** The leaderboard loop over the groups: a group without a winner is skipped. */
  method BuildLeaderboard(grouped: map<Key, seq<Run>>, order: seq<Key>) returns (places: seq<Place>)
    requires forall k :: k in order ==> k in grouped
    ensures places == Candidates(order, grouped)
  {
    places := [];
    for i := 0 to |order|
      invariant places == Candidates(order[..i], grouped)
    {
      assert order[..i + 1][..i] == order[..i];
      var entries := grouped[order[i]];
      var winners := Winners(entries);
      if winners != [] {
        places := places + [Place(StatsOf(winners).tokenSum, |winners|, order[i].name, order[i].mode)];
      }
    }
    assert order[..|order|] == order;
  }

  /** `p` is the entry of one of the groups `keys`. */
  predicate EntryOf(p: Place, keys: seq<Key>, grouped: map<Key, seq<Run>>) {
    exists k :: k in keys && k in grouped && PlaceOf(k, grouped[k]) == Some(p)
  }

  /** A group has an entry exactly when it has a winner, and its entry holds
      the tokens and the number of its winning runs. */
  lemma {:induction false} CandidatesIff(keys: seq<Key>, grouped: map<Key, seq<Run>>)
    requires forall k :: k in keys ==> k in grouped
    ensures forall p :: p in Candidates(keys, grouped) ==> EntryOf(p, keys, grouped)
    ensures forall k :: k in keys && Winners(grouped[k]) != [] ==> PlaceOf(k, grouped[k]).value in Candidates(keys, grouped)
    decreases |keys|
  {
    if keys != [] {
      var init := keys[..|keys| - 1];
      var last := keys[|keys| - 1];
      assert keys == init + [last];
      CandidatesIff(init, grouped);
      var c := Candidates(keys, grouped);
      var before := Candidates(init, grouped);
      var added := match PlaceOf(last, grouped[last]) case None => [] case Some(p) => [p];
      assert c == before + added;
      forall p | p in c
        ensures EntryOf(p, keys, grouped)
      {
        if p in before {
          var k :| k in init && k in grouped && PlaceOf(k, grouped[k]) == Some(p);
          assert k in keys;
        } else {
          assert PlaceOf(last, grouped[last]) == Some(p);
        }
      }
      forall k | k in keys && Winners(grouped[k]) != []
        ensures PlaceOf(k, grouped[k]).value in c
      {
        if k != last {
          assert k in init;
        }
      }
    }
  }

  /** Python's order on the tuples `(avg, label, mode, wins)`, with the
      averages compared exactly. */
  predicate Before(p: Place, q: Place) {
    || p.tokenSum * q.wins < q.tokenSum * p.wins
    || (p.tokenSum * q.wins == q.tokenSum * p.wins &&
        (LexLt(p.name, q.name) ||
         (p.name == q.name && (LexLt(p.mode, q.mode) || (p.mode == q.mode && p.wins <= q.wins)))))
  }

  lemma BeforeTotal(p: Place, q: Place)
    ensures Before(p, q) || Before(q, p)
  {
    LexLeTotal(p.name, q.name);
    LexLeTotal(p.mode, q.mode);
  }

  /** Every entry is no later than the next. */
  predicate Ranked(s: seq<Place>) {
    forall i :: 0 <= i < |s| - 1 ==> Before(s[i], s[i + 1])
  }

  function Insert(p: Place, s: seq<Place>): (r: seq<Place>)
    ensures |r| == |s| + 1
    ensures r[0] == p || (s != [] && r[0] == s[0])
  {
    if s == [] then [p]
    else if Before(p, s[0]) then [p] + s
    else [s[0]] + Insert(p, s[1..])
  }

  /** `leaderboard.sort()` */
  function SortPlaces(s: seq<Place>): (r: seq<Place>)
    ensures |r| == |s|
  {
    if s == [] then [] else Insert(s[0], SortPlaces(s[1..]))
  }

  lemma {:induction false} InsertRanks(p: Place, s: seq<Place>)
    requires Ranked(s)
    ensures Ranked(Insert(p, s)) && multiset(Insert(p, s)) == multiset(s) + multiset{p}
    decreases |s|
  {
    if s != [] && !Before(p, s[0]) {
      BeforeTotal(p, s[0]);
      InsertRanks(p, s[1..]);
      assert s == [s[0]] + s[1..];
    }
  }

  /** The sorted leaderboard is ranked and holds the same entries. */
  lemma {:induction false} SortPlacesRanks(s: seq<Place>)
    ensures Ranked(SortPlaces(s)) && multiset(SortPlaces(s)) == multiset(s)
    decreases |s|
  {
    if s != [] {
      SortPlacesRanks(s[1..]);
      InsertRanks(s[0], SortPlaces(s[1..]));
      assert s == [s[0]] + s[1..];
    }
  }

  // ---------------------------------------------------------------------------
  // the report

  /** What `generate_report` shows: nothing when there are no runs, or the
      table rows, the totals over all runs and the leaderboard. A record it
      cannot read stops it. */
  datatype Outcome = NoRuns | Crashed | Summary(rows: seq<Row>, totals: Stats, leaderboard: seq<Place>)

  /** The `grouped` dictionary. */
  function Grouped(runs: seq<Run>): map<Key, seq<Run>> {
    map k | k in Keys(runs) :: Members(runs, k)
  }

  /** The labels of the groups, as `sorted(set(...))` lists them. */
  function Labels(keys: seq<Key>): seq<string> {
    SortedSet(set k | k in keys :: k.name)
  }

  /** The table reads the turns of every run of a shown mode. */
  predicate TurnsMissing(runs: seq<Run>) {
    exists i :: 0 <= i < |runs| && runs[i].mode in MODES && runs[i].turns.None?
  }

  /** The report over the loaded records. */
  function ReportOf(docs: seq<Document>): Outcome {
    if docs == [] then NoRuns
    else if !Readable(docs) then Crashed
    else
      var runs := ReadAll(docs);
      if TurnsMissing(runs) then Crashed
      else
        var keys := Keys(runs);
        Summary(TableRows(Labels(keys), Grouped(runs)), StatsOf(runs), SortPlaces(Candidates(keys, Grouped(runs))))
  }

  /** `generate_report` over a log directory's files. */
  method GenerateReport(files: seq<LogFile>) returns (outcome: Outcome)
    ensures outcome == ReportOf(Kept(files))
  {
    var docs := LoadRuns(files);
    if docs == [] {
      return NoRuns;
    }
    if !Readable(docs) {
      return Crashed;
    }
    var runs := ReadAll(docs);
    if TurnsMissing(runs) {
      return Crashed;
    }
    var grouped, order := GroupRuns(runs);
    assert grouped == Grouped(runs);
    var rows := Table(Labels(order), grouped);
    var places := BuildLeaderboard(grouped, order);
    outcome := Summary(rows, StatsOf(runs), SortPlaces(places));
  }

  /** The report's table: a row for exactly the groups of a shown mode, each with
      its group's statistics, label by label in sorted order and bash before
      mcp; every shown group has runs, and the totals are those of all runs,
      which the groups partition. */
  lemma ReportTable(docs: seq<Document>)
    requires ReportOf(docs).Summary?
    ensures var o, runs := ReportOf(docs), ReadAll(docs);
            && o.totals.n == |docs| && o.totals.wins <= o.totals.n
            && GroupsMerged(runs, Keys(runs)) == o.totals
            && RowsOrdered(o.rows)
            && (forall r :: r in o.rows ==>
                  r.key in Keys(runs) && r.key.mode in MODES && r.stats == StatsOf(Members(runs, r.key)) && r.stats.n > 0)
            && (forall k :: k in Keys(runs) && k.mode in MODES ==> Row(k, StatsOf(Members(runs, k))) in o.rows)
  {
    var runs := ReadAll(docs);
    var keys := Keys(runs);
    var grouped := Grouped(runs);
    GroupsPartition(runs);
    KeysIff(runs);
    TableIff(Labels(keys), grouped);
    TableOrdered(Labels(keys), grouped);
  }

  /** `p` is the entry of one of the groups of `runs`. */
  predicate EntryOfGroup(p: Place, runs: seq<Run>) {
    exists k :: k in Keys(runs) && PlaceOf(k, Members(runs, k)) == Some(p)
  }

  /** The report's leaderboard: ranked by average tokens to win, then label,
      mode and wins, with an entry for exactly the groups that have a winning
      run, holding the tokens and the number of those winning runs. */
  lemma ReportLeaderboard(docs: seq<Document>)
    requires ReportOf(docs).Summary?
    ensures var o, runs := ReportOf(docs), ReadAll(docs);
            && Ranked(o.leaderboard)
            && (forall p :: p in o.leaderboard ==> EntryOfGroup(p, runs))
            && (forall k :: k in Keys(runs) && Winners(Members(runs, k)) != [] ==>
                  PlaceOf(k, Members(runs, k)).value in o.leaderboard)
  {
    LeaderboardOf(ReadAll(docs));
  }

  /** The leaderboard of the groups of `runs`: ranked, each entry that of a
      group, and every group with a winner entered. */
  lemma LeaderboardOf(runs: seq<Run>)
    ensures var board := SortPlaces(Candidates(Keys(runs), Grouped(runs)));
            && Ranked(board)
            && (forall p :: p in board ==> EntryOfGroup(p, runs))
            && (forall k :: k in Keys(runs) && Winners(Members(runs, k)) != [] ==>
                  PlaceOf(k, Members(runs, k)).value in board)
  {
    var keys := Keys(runs);
    var grouped := Grouped(runs);
    var c := Candidates(keys, grouped);
    var sorted := SortPlaces(c);
    CandidatesIff(keys, grouped);
    SortPlacesRanks(c);
    forall p | p in sorted
      ensures EntryOfGroup(p, runs)
    {
      assert p in multiset(sorted);
      assert EntryOf(p, keys, grouped);
      var k :| k in keys && k in grouped && PlaceOf(k, grouped[k]) == Some(p);
      assert grouped[k] == Members(runs, k);
    }
    forall k | k in keys && Winners(Members(runs, k)) != []
      ensures PlaceOf(k, Members(runs, k)).value in sorted
    {
      assert grouped[k] == Members(runs, k);
      assert PlaceOf(k, grouped[k]).value in multiset(c);
    }
  }
}
