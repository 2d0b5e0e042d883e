/**
 * Which targets a run builds. The registry maps short names such as
 * `linux_amd64` to canonical `os/arch` strings; a command-line list of names
 * or canonical strings is resolved against it, and the resolved targets are
 * kept in two groups, the ARM ones (those containing `/arm`) behind all the
 * others, each group in the order the targets were added.
 */
module Targets {
  import opened GoStrings
  import opened Wrappers
  import opened Seqs

  /** The registry the builder starts with. */
  const DefaultTargetNames: map<string, string> := map[
    "linux_386" := "linux/386",
    "linux_amd64" := "linux/amd64",
    "linux_arm5" := "linux/arm-5",
    "linux_arm6" := "linux/arm-6",
    "linux_arm7" := "linux/arm-7",
    "linux_arm64" := "linux/arm64",
    "darwin_amd64" := "darwin/amd64",
    "darwin_arm64" := "darwin/arm64",
    "windows_386" := "windows/386",
    "windows_amd64" := "windows/amd64"
  ]

  /**
   * getTarget: a registered short name gives its target, a registered target
   * gives itself, and anything else gives "".
   */
  function GetTarget(names: map<string, string>, target: string): (r: string)
    ensures r == "" || r in names.Values
    ensures target in names ==> r == names[target]
    ensures target !in names && r != "" ==> r == target
  {
    if target in names then names[target]
    else if target in names.Values then target
    else ""
  }

  /**
   * When no short name is also a target, resolving a resolved target gives
   * it back.
   */
  lemma GetTargetIdempotent(names: map<string, string>, target: string)
    requires forall k :: k in names ==> k !in names.Values
    requires "" !in names
    ensures GetTarget(names, GetTarget(names, target)) == GetTarget(names, target)
  {
    var r := GetTarget(names, target);
    if r != "" {
      assert r in names.Values;
      assert r !in names;
    }
  }

  /** A target string that is registered, either way, resolves to something. */
  lemma GetTargetFound(names: map<string, string>, target: string)
    requires target in names || target in names.Values
    ensures GetTarget(names, target) in names.Values
    ensures target in names.Values && target !in names ==> GetTarget(names, target) == target
  {
    if target in names {
      assert names[target] in names.Values;
    }
  }

  /** isMinified */
  predicate IsMinified(arg: string) {
    arg == "m" || arg == "min"
  }

  /** The `/arm` pattern that sends a target to the ARM group; `linux/arm64` matches it too. */
  predicate IsArm(target: string) {
    Contains(target, "/arm")
  }

  predicate NotArm(target: string) {
    !IsArm(target)
  }

  /** The non-ARM targets of `xs`, then its ARM targets, each in their order in `xs`. */
  function Grouped(xs: seq<string>): seq<string> {
    Filter(NotArm, xs) + Filter(IsArm, xs)
  }

  /**
   * Grouping keeps every target exactly once, and no ARM target comes
   * before a non-ARM one.
   */
  lemma GroupedSpec(xs: seq<string>)
    ensures var g := Grouped(xs);
      multiset(g) == multiset(xs)
      && (forall i, j :: 0 <= i < j < |g| && IsArm(g[i]) ==> IsArm(g[j]))
  {
    var a, b := Filter(NotArm, xs), Filter(IsArm, xs);
    FilterPartition(NotArm, IsArm, xs);
    forall x | x in a ensures !IsArm(x) {
      FilterElements(NotArm, xs, x);
    }
    forall x | x in b ensures IsArm(x) {
      FilterElements(IsArm, xs, x);
    }
    var g := a + b;
    forall i | 0 <= i < |a| ensures !IsArm(g[i]) {
      assert g[i] == a[i];
    }
    forall j | |a| <= j < |g| ensures IsArm(g[j]) {
      assert g[j] == b[j - |a|];
    }
  }

  /** Lists with the same multiset have the same length and elements. */
  lemma SameElements(a: seq<string>, b: seq<string>)
    requires multiset(a) == multiset(b)
    ensures |a| == |b| && forall x :: x in a <==> x in b
  {
    assert |a| == |multiset(a)|;
    forall x ensures x in a <==> x in b {
      assert x in a <==> x in multiset(a);
      assert x in b <==> x in multiset(b);
    }
  }

  /** Grouping a non-empty list gives a non-empty list. */
  lemma GroupedEmpty(xs: seq<string>)
    ensures Grouped(xs) == [] <==> xs == []
  {
    GroupedSpec(xs);
    if Grouped(xs) == [] {
      assert multiset(xs) == multiset{};
    }
  }

  /** Adding one more batch of targets extends each group by that batch's share. */
  lemma GroupsStep(xs: seq<string>, ext: seq<string>)
    ensures Filter(NotArm, xs + ext) == Filter(NotArm, xs) + Filter(NotArm, ext)
    ensures Filter(IsArm, xs + ext) == Filter(IsArm, xs) + Filter(IsArm, ext)
  {
    FilterAppend(NotArm, xs, ext);
    FilterAppend(IsArm, xs, ext);
  }

  /**
   * One comma-separated piece of a target list: a blank piece is skipped,
   * and so is one that resolves to "".
   */
  function PieceTarget(names: map<string, string>, piece: string): Option<string> {
    var t := TrimSpace(piece);
    if |t| == 0 then None
    else
      var r := GetTarget(names, t);
      if |r| == 0 then None else Some(r)
  }

  /**
   * A piece that is only white space adds nothing; any other piece adds the
   * target its trimmed text resolves to, unless that is empty.
   */
  lemma PieceTargetSpec(names: map<string, string>, piece: string)
    ensures AllSpace(piece) ==> PieceTarget(names, piece) == None
    ensures forall x :: PieceTarget(names, piece) == Some(x) <==>
      !AllSpace(piece) && x != "" && x == GetTarget(names, TrimSpace(piece))
  {
    TrimSpaceEmpty(piece);
  }

  /** The targets a list of pieces adds, in order. */
  function Resolve(names: map<string, string>, pieces: seq<string>): seq<string> {
    Collect(piece => PieceTarget(names, piece), pieces)
  }

  lemma ResolveSnoc(names: map<string, string>, pieces: seq<string>, i: nat)
    requires i < |pieces|
    ensures var t := PieceTarget(names, pieces[i]);
      Resolve(names, pieces[..i + 1]) == Resolve(names, pieces[..i]) + (if t.Some? then [t.value] else [])
  {
    assert pieces[..i + 1] == pieces[..i] + [pieces[i]];
    CollectSnoc(piece => PieceTarget(names, piece), pieces[..i], pieces[i]);
  }

  /**
   * A target is added from a list exactly when some piece resolves to it,
   * and then it is a non-empty registered target.
   */
  lemma ResolveElements(names: map<string, string>, pieces: seq<string>)
    ensures forall x :: x in Resolve(names, pieces) <==>
      exists i :: 0 <= i < |pieces| && PieceTarget(names, pieces[i]) == Some(x)
    ensures forall x :: x in Resolve(names, pieces) ==> x in names.Values && x != ""
  {
    CollectElements(piece => PieceTarget(names, piece), pieces);
  }

  /** The targets of a comma-separated list given on the command line. */
  function ResolveList(names: map<string, string>, list: string): seq<string> {
    Resolve(names, Split(list, ','))
  }

  /** The registry's targets in the order its keys are visited. */
  function ValuesInOrder(names: map<string, string>, order: seq<string>): seq<string> {
    if order == [] then []
    else
      var k := order[|order| - 1];
      ValuesInOrder(names, order[..|order| - 1]) + (if k in names then [names[k]] else [])
  }

  lemma ValuesInOrderSnoc(names: map<string, string>, order: seq<string>, i: nat)
    requires i < |order|
    ensures ValuesInOrder(names, order[..i + 1])
      == ValuesInOrder(names, order[..i]) + (if order[i] in names then [names[order[i]]] else [])
  {
    assert order[..i + 1][..i] == order[..i];
  }

  /**
   * Visiting the keys of the registry, in whatever order, yields exactly
   * its targets, one per key.
   */
  lemma {:induction false} ValuesInOrderSpec(names: map<string, string>, order: seq<string>)
    requires forall k :: k in order ==> k in names
    ensures |ValuesInOrder(names, order)| == |order|
    ensures forall x :: x in ValuesInOrder(names, order) <==>
      exists k :: k in order && k in names && names[k] == x
  {
    if order != [] {
      var init, k := order[..|order| - 1], order[|order| - 1];
      assert k in order;
      forall j | j in init ensures j in names {
        assert j in order;
      }
      ValuesInOrderSpec(names, init);
      forall x | x in ValuesInOrder(names, order)
        ensures exists j :: j in order && j in names && names[j] == x
      {
        if x in ValuesInOrder(names, init) {
          var j :| j in init && j in names && names[j] == x;
          assert j in order;
        } else {
          assert names[k] == x;
        }
      }
      forall x | exists j :: j in order && j in names && names[j] == x
        ensures x in ValuesInOrder(names, order)
      {
        var j :| j in order && j in names && names[j] == x;
        if j != k {
          assert j in init by {
            assert order == init + [k];
          }
        }
      }
    }
  }

  /** The two target slices `main` fills through its addTarget closure. */
  class TargetList {
    var targets: seq<string>
    var armTargets: seq<string>

    constructor()
      ensures targets == [] && armTargets == []
    {
      targets := [];
      armTargets := [];
    }

    /** Every selected target, ARM ones last. */
    function All(): seq<string>
      reads this
    {
      targets + armTargets
    }

    /** addTarget(target, true): files a target under its group unresolved. */
    method Add(target: string)
      modifies this
      ensures targets == old(targets) + Filter(NotArm, [target])
      ensures armTargets == old(armTargets) + Filter(IsArm, [target])
    {
      assert [target][..0] == [];
      if IsArm(target) {
        armTargets := armTargets + [target];
      } else {
        targets := targets + [target];
      }
    }

    /** addTarget(target): resolves the name first and drops it when it resolves to "". */
    method AddName(names: map<string, string>, target: string)
      modifies this
      ensures var r := GetTarget(names, target);
        targets == old(targets) + Filter(NotArm, if r == "" then [] else [r])
        && armTargets == old(armTargets) + Filter(IsArm, if r == "" then [] else [r])
    {
      var t := GetTarget(names, target);
      if |t| == 0 {
        return;
      }
      Add(t);
    }

    /**
     * The loop over a comma-separated list: each piece is trimmed, blank
     * ones are skipped and the others are resolved and added.
     */
    method AddList(names: map<string, string>, list: string)
      modifies this
      ensures targets == old(targets) + Filter(NotArm, ResolveList(names, list))
      ensures armTargets == old(armTargets) + Filter(IsArm, ResolveList(names, list))
    {
      var pieces := Split(list, ',');
      for i := 0 to |pieces|
        invariant targets == old(targets) + Filter(NotArm, Resolve(names, pieces[..i]))
        invariant armTargets == old(armTargets) + Filter(IsArm, Resolve(names, pieces[..i]))
      {
        ghost var done := Resolve(names, pieces[..i]);
        ghost var t := PieceTarget(names, pieces[i]);
        ghost var next: seq<string> := if t.Some? then [t.value] else [];
        ResolveSnoc(names, pieces, i);
        GroupsStep(done, next);
        AppendAssoc(old(targets), Filter(NotArm, done), Filter(NotArm, next));
        AppendAssoc(old(armTargets), Filter(IsArm, done), Filter(IsArm, next));
        var piece := TrimSpace(pieces[i]);
        if |piece| == 0 {
          continue;
        }
        AddName(names, piece);
      }
      assert pieces[..|pieces|] == pieces;
    }

    /** The loop over the registry: each target is added as it is, in visiting order. */
    method AddAll(names: map<string, string>, order: seq<string>)
      modifies this
      ensures targets == old(targets) + Filter(NotArm, ValuesInOrder(names, order))
      ensures armTargets == old(armTargets) + Filter(IsArm, ValuesInOrder(names, order))
    {
      for i := 0 to |order|
        invariant targets == old(targets) + Filter(NotArm, ValuesInOrder(names, order[..i]))
        invariant armTargets == old(armTargets) + Filter(IsArm, ValuesInOrder(names, order[..i]))
      {
        ghost var done := ValuesInOrder(names, order[..i]);
        ghost var next := if order[i] in names then [names[order[i]]] else [];
        ValuesInOrderSnoc(names, order, i);
        GroupsStep(done, next);
        AppendAssoc(old(targets), Filter(NotArm, done), Filter(NotArm, next));
        AppendAssoc(old(armTargets), Filter(IsArm, done), Filter(IsArm, next));
        if order[i] in names {
          Add(names[order[i]]);
        }
      }
      assert order[..|order|] == order;
    }
  }

  /** What a command line asks for. */
  datatype Mode =
    | Build(targets: seq<string>, minify: bool)
    | WriteConfig
    | MakeGen
    | PrintVersion
    | InvalidParameter
    | Unsupported(target: string)

  /** An explicit target list fails when nothing in it resolves. */
  function Explicit(names: map<string, string>, list: string, minify: bool): (m: Mode)
    ensures m.Build? || m.Unsupported?
    ensures m.Build? ==> m.minify == minify
  {
    var selected := Grouped(ResolveList(names, list));
    if |list| > 0 && selected == [] then Unsupported(list) else Build(selected, minify)
  }

  /**
   * The mode the positional arguments select. `order` is the order in which
   * the registry's keys are visited when every target is built.
   */
  function Selection(names: map<string, string>, args: seq<string>, order: seq<string>): Mode {
    if |args| == 2 then Explicit(names, args[0], IsMinified(args[1]))
    else if |args| == 1 then
      if IsMinified(args[0]) then Build(Grouped(ValuesInOrder(names, order)), true)
      else if args[0] == "genConfig" then WriteConfig
      else if args[0] == "makeGen" then MakeGen
      else if args[0] == "version" then PrintVersion
      else Explicit(names, args[0], false)
    else if |args| == 0 then Build(Grouped(ValuesInOrder(names, order)), false)
    else InvalidParameter
  }

  /**
   * Minification is requested by a lone `m` or `min`, or by one as the
   * second argument after a target list; no argument at all builds
   * everything unminified, and any other single token never minifies.
   */
  lemma MinifySelection(names: map<string, string>, args: seq<string>, order: seq<string>)
    ensures var m := Selection(names, args, order);
      (|args| == 0 ==> m.Build? && !m.minify)
      && (|args| == 1 ==> (m.Build? && m.minify <==> IsMinified(args[0])))
      && (|args| == 2 && m.Build? ==> (m.minify <==> IsMinified(args[1])))
      && (m.Build? && m.minify ==> exists a :: a in args && IsMinified(a))
  {
    var m := Selection(names, args, order);
    if m.Build? && m.minify {
      assert IsMinified(args[|args| - 1]);
    }
  }

  /** The targets of an explicit list, collected through addTarget. */
  method ListTargets(names: map<string, string>, list: string) returns (all: seq<string>)
    ensures all == Grouped(ResolveList(names, list))
  {
    var selected := new TargetList();
    selected.AddList(names, list);
    all := selected.All();
  }

  /** Every registered target, collected through addTarget in key-visiting order. */
  method EveryTarget(names: map<string, string>, order: seq<string>) returns (all: seq<string>)
    ensures all == Grouped(ValuesInOrder(names, order))
  {
    var selected := new TargetList();
    selected.AddAll(names, order);
    all := selected.All();
  }

  /** The argument switch of `main` and the unsupported-target check after it. */
  method SelectTargets(names: map<string, string>, args: seq<string>, order: seq<string>) returns (mode: Mode)
    ensures mode == Selection(names, args, order)
  {
    var all: seq<string> := [];
    var minify := false;
    var target := "";
    if |args| == 2 {
      minify := IsMinified(args[1]);
      target := args[0];
      all := ListTargets(names, target);
    } else if |args| == 1 {
      if IsMinified(args[0]) {
        minify := true;
        all := EveryTarget(names, order);
      } else if args[0] == "genConfig" {
        return WriteConfig;
      } else if args[0] == "makeGen" {
        return MakeGen;
      } else if args[0] == "version" {
        return PrintVersion;
      } else {
        target := args[0];
        all := ListTargets(names, target);
      }
    } else if |args| == 0 {
      all := EveryTarget(names, order);
    } else {
      return InvalidParameter;
    }
    if |target| > 0 && |all| == 0 {
      return Unsupported(target);
    }
    return Build(all, minify);
  }

  /**
   * An explicit list builds each target some piece of it resolves to, and
   * only those, non-ARM ones first; it fails exactly when the list is
   * non-empty and nothing resolves.
   */
  lemma ExplicitSpec(names: map<string, string>, list: string, minify: bool)
    ensures var m := Explicit(names, list, minify);
      (m.Unsupported? <==> |list| > 0 && ResolveList(names, list) == [])
      && (m.Build? ==>
            m.minify == minify
            && multiset(m.targets) == multiset(ResolveList(names, list))
            && (forall i, j :: 0 <= i < j < |m.targets| && IsArm(m.targets[i]) ==> IsArm(m.targets[j]))
            && (forall x :: x in m.targets ==> x in names.Values && x != ""))
  {
    var rs := ResolveList(names, list);
    GroupedSpec(rs);
    GroupedEmpty(rs);
    ResolveElements(names, Split(list, ','));
    forall x | x in Grouped(rs) ensures x in names.Values && x != "" {
      assert x in multiset(rs);
    }
  }

  /**
   * Building every target (no argument, or only `m`/`min`) selects each
   * registered target once per key, ARM ones last, and never fails; the
   * key order visits every key once, as a map range does.
   */
  lemma AllTargetsSpec(names: map<string, string>, args: seq<string>, order: seq<string>)
    requires args == [] || (|args| == 1 && IsMinified(args[0]))
    requires forall k :: k in order <==> k in names
    requires NoDup(order)
    ensures var m := Selection(names, args, order);
      m.Build? && (m.minify <==> args != [])
      && |m.targets| == |order| == |names|
      && (forall x :: x in m.targets <==> x in names.Values)
      && (forall i, j :: 0 <= i < j < |m.targets| && IsArm(m.targets[i]) ==> IsArm(m.targets[j]))
  {
    var vs := ValuesInOrder(names, order);
    var g := Grouped(vs);
    assert Selection(names, args, order) == Build(g, args != []);
    assert |g| == |order| && forall x :: x in g <==> x in names.Values by {
      ValuesInOrderSpec(names, order);
      GroupedSpec(vs);
      SameElements(g, vs);
    }
    assert forall i, j :: 0 <= i < j < |g| && IsArm(g[i]) ==> IsArm(g[j]) by {
      GroupedSpec(vs);
    }
    assert |order| == |names| by {
      KeyOrderLength(names, order);
    }
  }
}
