/**
 Path resolution: a loop over a stack of components that follows symbolic links and mounts,
 proved against a recursive walk, which terminates on cyclic links and composes.
 */
module PathWalk {

  const MAX_SYMLINK: nat := 40

  type Inode = nat

  datatype Error = NotADirectory | Loop | FsError(code: nat)

  datatype Result<+T> = Ok(value: T) | Err(error: Error)

  datatype FileType = Directory | Symlink | Other

  /** What a symbolic link leads to: an inode at once, or a path to walk. */
  datatype Link = Jump(target: Inode) | Text(path: string)

  /** An unchanging filesystem tree with its mounts and root. */
  datatype Fs = Fs(
    getattr: Inode -> Result<FileType>,
    lookup: (Inode, string) -> Result<Inode>,
    readlink: Inode -> Result<Link>,
    mounts: map<Inode, Inode>,
    root: Inode)

  // ----- Components -----

  function Emit(word: string): seq<string> {
    if word == "" then [] else [word]
  }

  function Split(path: string, word: string): seq<string> {
    if path == "" then Emit(word)
    else if path[0] == '/' then Emit(word) + Split(path[1..], "")
    else Split(path[1..], word + [path[0]])
  }

  /** The non-empty names between slashes. */
  function Components(path: string): seq<string> {
    Split(path, "")
  }

  predicate EndsWithSlash(path: string) {
    path != "" && path[|path| - 1] == '/'
  }

  /** What a link's text adds to the walk; a trailing slash asks for a directory. */
  function Expansion(text: string): seq<string> {
    Components(text) + (if EndsWithSlash(text) then ["."] else [])
  }

  lemma {:induction false} SplitJoin(p: string, q: string, word: string)
    ensures Split(p + "/" + q, word) == Split(p, word) + Split(q, "")
    decreases p
  {
    if p == "" {
      assert (p + "/" + q)[0] == '/' && (p + "/" + q)[1..] == q;
    } else {
      assert (p + "/" + q)[0] == p[0] && (p + "/" + q)[1..] == p[1..] + "/" + q;
      if p[0] == '/' {
        SplitJoin(p[1..], q, "");
      } else {
        SplitJoin(p[1..], q, word + [p[0]]);
      }
    }
  }

  // ----- The walk -----

  function Hop(fs: Fs, i: Inode): Inode {
    if i in fs.mounts then fs.mounts[i] else i
  }

  datatype Place = Place(inode: Inode, links: nat)

  /** What one component leads to: an error, an inode, or a link met in directory `here`. */
  datatype Turn = Fail(error: Error) | Move(inode: Inode) | Follow(here: Inode, link: Inode)

  function TakeTurn(fs: Fs, cur: Inode, name: string, follow: bool): Turn {
    var here := Hop(fs, cur);
    var kind := fs.getattr(here);
    if kind.Err? then Fail(kind.error)
    else if kind.value != Directory then Fail(NotADirectory)
    else if name == "." then Move(here)
    else
      var next := fs.lookup(here, name);
      if next.Err? then Fail(next.error)
      else
        var nextKind := fs.getattr(next.value);
        if nextKind.Err? then Fail(nextKind.error)
        else if nextKind.value == Symlink && follow then Follow(here, next.value)
        else Move(next.value)
  }

  /** Where a link continues the walk, and the components it puts in front. */
  datatype Detour = Detour(from: Inode, comps: seq<string>)

  function Expand(fs: Fs, here: Inode, link: Inode): Result<Detour> {
    var target := fs.readlink(link);
    if target.Err? then Err(target.error)
    else match target.value
      case Jump(inode) => Ok(Detour(inode, []))
      case Text(path) => Ok(Detour(if path != "" && path[0] == '/' then fs.root else here, Expansion(path)))
  }

  /** Walks components from `cur`, with `used` links followed so far, up to the final mount hop. */
  function Walk(fs: Fs, cur: Inode, comps: seq<string>, used: nat, follow: bool): (r: Result<Place>)
    requires used <= MAX_SYMLINK
    ensures r.Ok? ==> used <= r.value.links <= MAX_SYMLINK
    decreases MAX_SYMLINK - used, |comps|
  {
    if comps == [] then Ok(Place(cur, used))
    else
      var rest := comps[1..];
      match TakeTurn(fs, cur, comps[0], follow || rest != [])
      case Fail(error) => Err(error)
      case Move(inode) => Walk(fs, inode, rest, used, follow)
      case Follow(here, link) =>
        if used == MAX_SYMLINK then Err(Loop)
        else
          var detour := Expand(fs, here, link);
          if detour.Err? then Err(detour.error)
          else Walk(fs, detour.value.from, detour.value.comps + rest, used + 1, follow)
  }

  /** The walk, the final mount hop, and the directory a trailing slash asks for. */
  function Resolve(fs: Fs, path: string, start: Inode, follow: bool): Result<Inode> {
    var walked := Walk(fs, start, Components(path), 0, follow);
    if walked.Err? then Err(walked.error)
    else
      var there := Hop(fs, walked.value.inode);
      if !EndsWithSlash(path) then Ok(there)
      else
        var kind := fs.getattr(there);
        if kind.Err? then Err(kind.error)
        else if kind.value != Directory then Err(NotADirectory) else Ok(there)
  }

  // ----- What a walk means, case by case -----

  /** Joining paths and these two facts determine the components of every path. */
  lemma {:induction false} NameIsOneComponent(name: string, word: string)
    requires '/' !in name
    ensures Split(name, word) == if word + name == "" then [] else [word + name]
    decreases name
  {
    if name != "" {
      NameIsOneComponent(name[1..], word + [name[0]]);
      assert word + [name[0]] + name[1..] == word + name;
    } else {
      assert word + name == word;
    }
  }

  /** With nothing to walk the walk is over; it fails where it does not stand in a directory, mounts crossed. */
  lemma WalkStops(fs: Fs, cur: Inode, name: string, rest: seq<string>, used: nat, follow: bool)
    requires used <= MAX_SYMLINK
    ensures Walk(fs, cur, [], used, follow) == Ok(Place(cur, used))
    ensures var here := if cur in fs.mounts then fs.mounts[cur] else cur;
            var w := Walk(fs, cur, [name] + rest, used, follow);
            && (fs.getattr(here).Err? ==> w == Err(fs.getattr(here).error))
            && (fs.getattr(here).Ok? && fs.getattr(here).value != Directory ==> w == Err(NotADirectory))
  {
  }

  /** In a directory, a dot stays, a failed lookup fails, and a name that is no link to follow is stepped to. */
  lemma WalkSteps(fs: Fs, cur: Inode, name: string, rest: seq<string>, used: nat, follow: bool)
    requires used <= MAX_SYMLINK
    requires var here := if cur in fs.mounts then fs.mounts[cur] else cur; fs.getattr(here) == Ok(Directory)
    ensures var here := if cur in fs.mounts then fs.mounts[cur] else cur;
            var w, found := Walk(fs, cur, [name] + rest, used, follow), fs.lookup(here, name);
            && (name == "." ==> w == Walk(fs, here, rest, used, follow))
            && (name != "." && found.Err? ==> w == Err(found.error))
            && (name != "." && found.Ok? ==>
                  var kind := fs.getattr(found.value);
                  && (kind.Err? ==> w == Err(kind.error))
                  && (kind.Ok? && (kind.value != Symlink || (!follow && rest == [])) ==>
                        w == Walk(fs, found.value, rest, used, follow)))
  {
    assert ([name] + rest)[1..] == rest;
  }

  /** `cur` leads by `name` from directory `here` to a link that is to be followed. */
  ghost predicate MeetsLink(fs: Fs, cur: Inode, here: Inode, name: string, link: Inode, rest: seq<string>,
                            follow: bool)
  {
    && here == (if cur in fs.mounts then fs.mounts[cur] else cur) && fs.getattr(here) == Ok(Directory)
    && name != "." && fs.lookup(here, name) == Ok(link) && fs.getattr(link) == Ok(Symlink) && (follow || rest != [])
  }

  /**
   A link whose text begins with a slash starts over at the root, any other text at the link's own directory, a jump at
   its target; a text that ends in a slash asks for a directory. One more link is used; with none left it is a loop.
   */
  lemma WalkFollows(
    fs: Fs, cur: Inode, here: Inode, name: string, link: Inode, rest: seq<string>, used: nat, follow: bool)
    requires used <= MAX_SYMLINK && MeetsLink(fs, cur, here, name, link, rest, follow)
    ensures var w, target := Walk(fs, cur, [name] + rest, used, follow), fs.readlink(link);
            && (used == MAX_SYMLINK ==> w == Err(Loop))
            && (used < MAX_SYMLINK && target.Err? ==> w == Err(target.error))
            && (used < MAX_SYMLINK && target.Ok? && target.value.Jump? ==>
                  w == Walk(fs, target.value.target, rest, used + 1, follow))
            && (used < MAX_SYMLINK && target.Ok? && target.value.Text? ==>
                  var text := target.value.path;
                  var comps := Components(text) + (if text != "" && text[|text| - 1] == '/' then ["."] else []);
                  && (text != "" && text[0] == '/' ==> w == Walk(fs, fs.root, comps + rest, used + 1, follow))
                  && (text == "" || text[0] != '/' ==> w == Walk(fs, here, comps + rest, used + 1, follow)))
  {
    assert ([name] + rest)[1..] == rest;
    assert [] + rest == rest;
  }

  /** The whole resolution: one more mount hop at the end, and a directory there if the path ends in a slash. */
  lemma ResolveMeans(fs: Fs, path: string, start: Inode, follow: bool)
    ensures var w, r := Walk(fs, start, Components(path), 0, follow), Resolve(fs, path, start, follow);
            && (w.Err? ==> r == Err(w.error))
            && (w.Ok? ==>
                  var end := w.value.inode;
                  var there := if end in fs.mounts then fs.mounts[end] else end;
                  var slash := path != "" && path[|path| - 1] == '/';
                  && (!slash || fs.getattr(there) == Ok(Directory) ==> r == Ok(there))
                  && (slash && fs.getattr(there).Ok? && fs.getattr(there).value != Directory ==>
                        r == Err(NotADirectory))
                  && (slash && fs.getattr(there).Err? ==> r == Err(fs.getattr(there).error)))
  {
  }

  // ----- Composition -----

  /** Continues a walk that has reached a place. */
  function Then(fs: Fs, first: Result<Place>, comps: seq<string>, follow: bool): Result<Place>
    requires first.Ok? ==> first.value.links <= MAX_SYMLINK
  {
    if first.Err? then first else Walk(fs, first.value.inode, comps, first.value.links, follow)
  }

  /**
   Walking `a` and then `b` is walking `a` with every link followed and then `b` with the
   links that are left, whatever the links are.
   */
  lemma {:induction false} WalkComposes(fs: Fs, cur: Inode, a: seq<string>, b: seq<string>, used: nat, follow: bool)
    requires used <= MAX_SYMLINK && b != []
    ensures Walk(fs, cur, a + b, used, follow) == Then(fs, Walk(fs, cur, a, used, true), b, follow)
    decreases MAX_SYMLINK - used, |a|
  {
    if a == [] {
      assert a + b == b;
    } else {
      var rest := a[1..];
      assert (a + b)[0] == a[0] && (a + b)[1..] == rest + b;
      match TakeTurn(fs, cur, a[0], true)
      case Fail(error) =>
      case Move(inode) => WalkComposes(fs, inode, rest, b, used, follow);
      case Follow(here, link) =>
        var detour := Expand(fs, here, link);
        if used < MAX_SYMLINK && detour.Ok? {
          var more := detour.value.comps;
          assert more + (rest + b) == (more + rest) + b;
          WalkComposes(fs, detour.value.from, more + rest, b, used + 1, follow);
        }
    }
  }

  /** `late` succeeds exactly if `early` does and `extra` more links are within the limit, and ends at its inode. */
  predicate Shifted(early: Result<Place>, late: Result<Place>, extra: nat) {
    && (late.Ok? <==> early.Ok? && early.value.links + extra <= MAX_SYMLINK)
    && (late.Ok? ==> late == Ok(Place(early.value.inode, early.value.links + extra)))
  }

  /** A walk starting with more links used succeeds if and only if the links it needs are left; it ends alike. */
  lemma {:induction false} BudgetShifts(
    fs: Fs, cur: Inode, comps: seq<string>, less: nat, more: nat, follow: bool)
    requires less <= more <= MAX_SYMLINK
    ensures Shifted(Walk(fs, cur, comps, less, follow), Walk(fs, cur, comps, more, follow), more - less)
    decreases MAX_SYMLINK - more, |comps|
  {
    if comps != [] {
      var rest := comps[1..];
      match TakeTurn(fs, cur, comps[0], follow || rest != [])
      case Fail(error) =>
      case Move(inode) => BudgetShifts(fs, inode, rest, less, more, follow);
      case Follow(here, link) =>
        var detour := Expand(fs, here, link);
        if more < MAX_SYMLINK && detour.Ok? {
          BudgetShifts(fs, detour.value.from, detour.value.comps + rest, less + 1, more + 1, follow);
        }
    }
  }

  /** No mount root is itself a mount point of another root. */
  predicate MountsSettle(mounts: map<Inode, Inode>) {
    forall i :: i in mounts && mounts[i] in mounts ==> mounts[mounts[i]] == mounts[i]
  }

  lemma WalkFromRoot(fs: Fs, i: Inode, comps: seq<string>, used: nat, follow: bool)
    requires MountsSettle(fs.mounts) && comps != [] && used <= MAX_SYMLINK
    ensures Walk(fs, Hop(fs, i), comps, used, follow) == Walk(fs, i, comps, used, follow)
  {
  }

  /** A path that resolves does so in two stages: its head as a directory, then its tail from there. */
  lemma ResolveInStages(fs: Fs, p: string, q: string, start: Inode, follow: bool)
    requires MountsSettle(fs.mounts) && Components(q) != []
    requires Resolve(fs, p + "/" + q, start, follow).Ok?
    ensures var head := Resolve(fs, p, start, true);
            head.Ok? && Resolve(fs, q, head.value, follow) == Resolve(fs, p + "/" + q, start, follow)
  {
    var a, b := Components(p), Components(q);
    SplitJoin(p, q, "");
    WalkComposes(fs, start, a, b, 0, follow);
    var mid := Walk(fs, start, a, 0, true);
    var place := mid.value;
    assert fs.getattr(Hop(fs, place.inode)) == Ok(Directory);
    WalkFromRoot(fs, place.inode, b, 0, follow);
    BudgetShifts(fs, place.inode, b, 0, place.links, follow);
    assert EndsWithSlash(p + "/" + q) <==> EndsWithSlash(q);
  }

  /** Whatever resolves, resolves in stages to the same inode. */
  ghost predicate StagesAgree(fs: Fs) {
    forall p: string, q: string, start: Inode, follow: bool ::
      Components(q) != [] && Resolve(fs, p + "/" + q, start, follow).Ok? ==>
        var head := Resolve(fs, p, start, true);
        head.Ok? && Resolve(fs, q, head.value, follow) == Resolve(fs, p + "/" + q, start, follow)
  }

  lemma BoundOf(taken: set<Inode>) returns (n: nat)
    ensures forall i :: i in taken ==> i < n
    decreases |taken|
  {
    if taken == {} {
      n := 0;
    } else {
      var t :| t in taken;
      var m := BoundOf(taken - {t});
      n := if m > t then m else t + 1;
      assert forall i :: i in taken ==> i == t || i in taken - {t};
    }
  }

  /** Directories throughout, with one name that leads to `u` from inode `at` and to `v` from elsewhere. */
  function TwoWays(mounts: map<Inode, Inode>, at: Inode, u: Inode, v: Inode): Fs {
    Fs(i => Ok(Directory), (i, name) => Ok(if i == at then u else v), i => Err(Loop), mounts, 0)
  }

  /** With a mount root that is a mount point, some filesystem tells the stages apart: the second one hops once more. */
  lemma StackedMountsDiffer(mounts: map<Inode, Inode>, i: Inode, u: Inode, v: Inode)
    requires i in mounts && mounts[i] in mounts && mounts[mounts[i]] != mounts[i]
    requires u != v && u !in mounts && v !in mounts
    ensures var fs := TwoWays(mounts, mounts[i], u, v);
            && Resolve(fs, "" + "/" + "x", i, true) == Ok(u)
            && Resolve(fs, "", i, true) == Ok(mounts[i]) && Resolve(fs, "x", mounts[i], true) == Ok(v)
            && !StagesAgree(fs)
  {
    var fs := TwoWays(mounts, mounts[i], u, v);
    assert "x"[1..] == "" && "" + ['x'] == "x";
    assert Components("x") == ["x"] && Components("") == [];
    SplitJoin("", "x", "");
    assert Components("" + "/" + "x") == ["x"];
    assert ["x"][1..] == [];
    assert Walk(fs, i, ["x"], 0, true) == Ok(Place(u, 0));
    assert Walk(fs, mounts[i], ["x"], 0, true) == Ok(Place(v, 0));
  }

  /** Stages agree in every filesystem with these mounts if and only if no mount root is a mount point of another. */
  lemma StagesAgreeIffSettled(mounts: map<Inode, Inode>)
    ensures MountsSettle(mounts) <==> forall fs: Fs :: fs.mounts == mounts ==> StagesAgree(fs)
  {
    if MountsSettle(mounts) {
      forall fs: Fs | fs.mounts == mounts ensures StagesAgree(fs) {
        forall p: string, q: string, start: Inode, follow: bool
          | Components(q) != [] && Resolve(fs, p + "/" + q, start, follow).Ok?
          ensures var head := Resolve(fs, p, start, true);
                  head.Ok? && Resolve(fs, q, head.value, follow) == Resolve(fs, p + "/" + q, start, follow)
        {
          ResolveInStages(fs, p, q, start, follow);
        }
      }
    } else {
      var i :| i in mounts && mounts[i] in mounts && mounts[mounts[i]] != mounts[i];
      var n := BoundOf(mounts.Keys);
      StackedMountsDiffer(mounts, i, n, n + 1);
      assert TwoWays(mounts, mounts[i], n, n + 1).mounts == mounts;
    }
  }

  // ----- How long it takes -----

  /** A link that leads back to its own name is a loop, from any budget and with anything after it. */
  lemma {:induction false} SelfLinkLoops(
    fs: Fs, dir: Inode, name: string, link: Inode, rest: seq<string>, used: nat, follow: bool)
    requires used <= MAX_SYMLINK && (follow || rest != [])
    requires Hop(fs, dir) == dir && fs.getattr(dir) == Ok(Directory) && name != "." && name != "" && name[0] != '/'
    requires fs.lookup(dir, name) == Ok(link) && fs.getattr(link) == Ok(Symlink)
    requires fs.readlink(link) == Ok(Text(name)) && Expansion(name) == [name]
    ensures Walk(fs, dir, [name] + rest, used, follow) == Err(Loop)
    decreases MAX_SYMLINK - used
  {
    WalkUnfolds(fs, dir, name, rest, used, follow);
    if used < MAX_SYMLINK {
      SelfLinkLoops(fs, dir, name, link, rest, used + 1, follow);
    }
  }

  /** Every link's text adds at most `n` components. */
  ghost predicate LinksBounded(fs: Fs, n: nat) {
    forall i :: fs.readlink(i).Ok? && fs.readlink(i).value.Text? ==> |Expansion(fs.readlink(i).value.path)| <= n
  }

  /** The components that `left` more links may add. */
  function LinkWork(left: nat, n: nat): nat {
    if left == 0 then 0 else n + LinkWork(left - 1, n)
  }

  lemma {:induction false} LinkWorkIsProduct(left: nat, n: nat)
    ensures LinkWork(left, n) == left * n
  {
    if left > 0 {
      LinkWorkIsProduct(left - 1, n);
      assert left * n == (left - 1) * n + n;
    }
  }

  // ----- The loop -----

  /** The components still to walk, top of the stack first. */
  function Pending(stack: seq<string>): (comps: seq<string>)
    ensures |comps| == |stack|
  {
    if stack == [] then [] else [stack[|stack| - 1]] + Pending(stack[..|stack| - 1])
  }

  method PushReversed(stack: seq<string>, comps: seq<string>) returns (r: seq<string>)
    ensures Pending(r) == comps + Pending(stack) && |r| == |comps| + |stack|
  {
    r := stack;
    for k := |comps| downto 0
      invariant Pending(r) == comps[k..] + Pending(stack) && |r| == |comps| - k + |stack|
    {
      r := r + [comps[k]];
      assert r[..|r| - 1] + [r[|r| - 1]] == r;
      assert comps[k..] == [comps[k]] + comps[k + 1..];
    }
  }

  /** One pass of the loop is one step of the walk. */
  lemma WalkUnfolds(fs: Fs, cur: Inode, name: string, rest: seq<string>, used: nat, follow: bool)
    requires used <= MAX_SYMLINK
    ensures var turn := TakeTurn(fs, cur, name, follow || rest != []);
            Walk(fs, cur, [name] + rest, used, follow) ==
            match turn
            case Fail(error) => Err(error)
            case Move(inode) => Walk(fs, inode, rest, used, follow)
            case Follow(here, link) =>
              if used == MAX_SYMLINK then Err(Loop)
              else
                var detour := Expand(fs, here, link);
                if detour.Err? then Err(detour.error)
                else Walk(fs, detour.value.from, detour.value.comps + rest, used + 1, follow)
  {
    assert ([name] + rest)[1..] == rest;
  }

  lemma DetourBounded(fs: Fs, here: Inode, link: Inode, n: nat)
    requires LinksBounded(fs, n) && Expand(fs, here, link).Ok?
    ensures |Expand(fs, here, link).value.comps| <= n
  {
  }

  /** Reads a link and puts its components on the stack. */
  method TakeDetour(fs: Fs, here: Inode, link: Inode, stack: seq<string>, ghost n: nat)
    returns (detour: Result<Detour>, after: seq<string>)
    ensures detour == Expand(fs, here, link)
    ensures detour.Ok? ==> Pending(after) == detour.value.comps + Pending(stack)
    ensures detour.Ok? && LinksBounded(fs, n) ==> |after| <= |stack| + n
  {
    detour, after := Expand(fs, here, link), stack;
    if detour.Ok? {
      if LinksBounded(fs, n) { DetourBounded(fs, here, link, n); }
      after := PushReversed(stack, detour.value.comps);
    }
  }

  /** One pass of the loop: the walk goes on from another place with what is then on the stack, or fails. */
  method WalkOn(fs: Fs, cur: Inode, component: string, stack: seq<string>, links: nat, follow: bool, ghost n: nat)
    returns (next: Result<Place>, after: seq<string>)
    requires links <= MAX_SYMLINK
    ensures next.Err? ==> Walk(fs, cur, [component] + Pending(stack), links, follow) == Err(next.error)
    ensures next.Ok? ==>
              && links <= next.value.links <= MAX_SYMLINK && (next.value.links == links ==> after == stack)
              && Walk(fs, cur, [component] + Pending(stack), links, follow)
                 == Walk(fs, next.value.inode, Pending(after), next.value.links, follow)
    ensures next.Ok? && LinksBounded(fs, n) ==>
              |after| + LinkWork(MAX_SYMLINK - next.value.links, n) <= |stack| + LinkWork(MAX_SYMLINK - links, n)
  {
    after := stack;
    WalkUnfolds(fs, cur, component, Pending(stack), links, follow);
    assert stack != [] <==> Pending(stack) != [];
    match TakeTurn(fs, cur, component, follow || stack != [])
    case Fail(error) => return Err(error), after;
    case Move(inode) => return Ok(Place(inode, links)), after;
    case Follow(here, link) =>
      if links == MAX_SYMLINK { return Err(Loop), after; }
      var detour;
      detour, after := TakeDetour(fs, here, link, stack, n);
      if detour.Err? { return Err(detour.error), after; }
      return Ok(Place(detour.value.from, links + 1)), after;
  }

  /** The loop of `resolve_path_internal`; `turns` counts its passes. */
  method WalkPath(fs: Fs, start: Inode, comps: seq<string>, follow: bool, ghost n: nat)
    returns (r: Result<Inode>, turns: nat)
    ensures var w := Walk(fs, start, comps, 0, follow);
            r == if w.Ok? then Ok(w.value.inode) else Err(w.error)
    ensures LinksBounded(fs, n) ==> turns <= |comps| + LinkWork(MAX_SYMLINK, n)
  {
    var cur, links := start, 0;
    ghost var goal, work := Walk(fs, cur, comps, links, follow), LinkWork(MAX_SYMLINK - links, n);
    turns := 0;
    var components := PushReversed([], comps);
    assert comps + Pending([]) == comps;
    while components != []
      invariant links <= MAX_SYMLINK
      invariant Walk(fs, cur, Pending(components), links, follow) == goal
      invariant LinksBounded(fs, n) ==>
                  turns + |components| + LinkWork(MAX_SYMLINK - links, n) <= |comps| + work
      decreases MAX_SYMLINK - links, |components|
    {
      ghost var before := Pending(components);
      var component := components[|components| - 1];
      components := components[..|components| - 1];
      assert before == [component] + Pending(components);
      turns := turns + 1;
      var next;
      next, components := WalkOn(fs, cur, component, components, links, follow, n);
      if next.Err? { return Err(next.error), turns; }
      cur, links := next.value.inode, next.value.links;
    }
    return Ok(cur), turns;
  }

  /** `resolve_path_internal`: it ends, however the links are tied, within a bound that the links' length sets. */
  method ResolvePath(fs: Fs, path: string, start: Inode, follow: bool, ghost n: nat)
    returns (r: Result<Inode>, turns: nat)
    ensures r == Resolve(fs, path, start, follow)
    ensures LinksBounded(fs, n) ==> turns <= |Components(path)| + MAX_SYMLINK * n
  {
    LinkWorkIsProduct(MAX_SYMLINK, n);
    r, turns := WalkPath(fs, start, Components(path), follow, n);
    if r.Err? { return; }
    var there := Hop(fs, r.value);
    if EndsWithSlash(path) {
      var kind := fs.getattr(there);
      if kind.Err? { return Err(kind.error), turns; }
      if kind.value != Directory { return Err(NotADirectory), turns; }
    }
    r := Ok(there);
  }
}
