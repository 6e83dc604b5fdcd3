/**
 The dependency graph of a lock file and the importer's projection of it (import/pinrail_import.py): finding
 every package the selected ones need, and checking that a projected lock only prunes.
 */
module LockGraph {
  import opened Options

  datatype Identity = Identity(name: string, version: string, source: Option<string>, checksum: Option<string>)

  /** A locked package; `other` stands for its remaining fields. */
  datatype Package = Package(id: Identity, dependencies: seq<string>, other: string)

  datatype Error =
    | DuplicateIdentity
    | UnsupportedReference(reference: string)
    | MissingOrAmbiguous(reference: string)
    | SelectionNotLocked
    | Escapes(id: Identity)
    | UnreviewedSections
    | VersionChanged
    | NewPackage
    | LostLocalPackage
    | UnknownOriginal
    | MetadataChanged
    | NewEdge

  datatype Result<+T> = Ok(value: T) | Err(error: Error)

  // ----- References -----

  /** A dependency names a package, and if that is not enough also its version and source. */
  datatype Reference = Reference(name: string, version: Option<string>, origin: Option<string>)

  predicate NameChar(c: char) {
    c != ' ' && c != '(' && c != ')'
  }

  predicate IsName(s: string) {
    s != "" && forall i | 0 <= i < |s| :: NameChar(s[i])
  }

  /** What separates the parts of a reference cannot be in a name, and everything else can. */
  lemma IsNameExactly(s: string)
    ensures IsName(s) <==> s != "" && ' ' !in s && '(' !in s && ')' !in s
  {
    if IsName(s) {
      assert forall i :: 0 <= i < |s| ==> NameChar(s[i]);
    } else if s != "" {
      var i :| 0 <= i < |s| && !NameChar(s[i]);
      assert s[i] in s;
    }
  }

  /** The length of the longest prefix of name characters. */
  function NameLength(s: string): (n: nat)
    ensures n <= |s| && (forall i :: 0 <= i < n ==> NameChar(s[i])) && (n < |s| ==> !NameChar(s[n]))
  {
    if s == "" || !NameChar(s[0]) then 0 else 1 + NameLength(s[1..])
  }

  /** The rest of a reference after its name and version: nothing, or a source in parentheses. */
  function ParseOrigin(s: string): Option<Option<string>> {
    if s == "" then Some(None)
    else if |s| >= 4 && s[0] == ' ' && s[1] == '(' && s[|s| - 1] == ')' && '\n' !in s[2..|s| - 1]
    then Some(Some(s[2..|s| - 1])) else None
  }

  /** What follows the name: a version, if there is one, and a source. */
  function ParseRest(rest: string): Option<(Option<string>, Option<string>)> {
    var v := if rest != "" && rest[0] == ' ' then NameLength(rest[1..]) else 0;
    var version := if v == 0 then None else Some(rest[1..1 + v]);
    match ParseOrigin(if v == 0 then rest else rest[1 + v..])
    case None => None
    case Some(origin) => Some((version, origin))
  }

  /** Matches the whole of `name`, `name version`, `name (source)` or `name version (source)`. */
  function ParseReference(s: string): Option<Reference> {
    var n := NameLength(s);
    if n == 0 then None
    else
      match ParseRest(s[n..])
      case None => None
      case Some((version, origin)) => Some(Reference(s[..n], version, origin))
  }

  function FormatVersion(version: Option<string>): string {
    match version
    case None => ""
    case Some(v) => " " + v
  }

  function FormatOrigin(origin: Option<string>): string {
    match origin
    case None => ""
    case Some(o) => " (" + o + ")"
  }

  function FormatReference(r: Reference): string {
    r.name + (FormatVersion(r.version) + FormatOrigin(r.origin))
  }

  predicate OriginValid(origin: Option<string>) {
    origin.Some? ==> origin.value != "" && '\n' !in origin.value
  }

  predicate ReferenceValid(r: Reference) {
    IsName(r.name) && (r.version.Some? ==> IsName(r.version.value)) && OriginValid(r.origin)
  }

  lemma {:induction false} NameLengthOf(name: string, rest: string)
    requires (forall i :: 0 <= i < |name| ==> NameChar(name[i])) && (rest != "" ==> !NameChar(rest[0]))
    ensures NameLength(name + rest) == |name|
    decreases |name|
  {
    if name == "" {
      assert name + rest == rest;
    } else {
      assert (name + rest)[1..] == name[1..] + rest;
      NameLengthOf(name[1..], rest);
    }
  }

  lemma OriginRoundTrip(origin: Option<string>)
    requires OriginValid(origin)
    ensures ParseOrigin(FormatOrigin(origin)) == Some(origin)
  {
    if origin.Some? {
      var s := FormatOrigin(origin);
      assert s[2..|s| - 1] == origin.value;
    }
  }

  lemma RestRoundTrip(version: Option<string>, origin: Option<string>)
    requires (version.Some? ==> IsName(version.value)) && OriginValid(origin)
    ensures ParseRest(FormatVersion(version) + FormatOrigin(origin)) == Some((version, origin))
  {
    OriginRoundTrip(origin);
    OriginShape(origin);
    var tail := FormatOrigin(origin);
    hide ParseOrigin, FormatOrigin;
    match version
    case None =>
      assert "" + tail == tail;
    case Some(v) =>
      VersionSplits(v, tail);
  }

  /** A source in parentheses cannot be taken for a version. */
  lemma OriginShape(origin: Option<string>)
    ensures FormatOrigin(origin) != "" ==> FormatOrigin(origin)[0] == ' ' && NameLength(FormatOrigin(origin)[1..]) == 0
  {
    if origin.Some? {
      assert FormatOrigin(origin)[1..][0] == '(';
    }
  }

  lemma VersionSplits(v: string, tail: string)
    requires IsName(v) && (tail != "" ==> tail[0] == ' ')
    ensures var rest := " " + v + tail;
            rest[0] == ' ' && NameLength(rest[1..]) == |v| && rest[1..1 + |v|] == v && rest[1 + |v|..] == tail
  {
    NameLengthOf(v, tail);
    hide NameLength;
    var rest := " " + v + tail;
    assert rest[1..] == v + tail;
    assert rest[1..1 + |v|] == v;
    assert rest[1 + |v|..] == tail;
  }

  /** Every well-formed reference is read back as it was written ... */
  lemma ReferenceRoundTrip(r: Reference)
    requires ReferenceValid(r)
    ensures ParseReference(FormatReference(r)) == Some(r)
  {
    RestRoundTrip(r.version, r.origin);
    var rest := FormatVersion(r.version) + FormatOrigin(r.origin);
    assert rest != "" ==> rest[0] == ' ';
    NameLengthOf(r.name, rest);
    hide ParseRest, FormatVersion, FormatOrigin;
    var s := r.name + rest;
    assert s[..|r.name|] == r.name && s[|r.name|..] == rest;
  }

  lemma RestParsesExactly(rest: string)
    requires ParseRest(rest).Some?
    ensures var (version, origin) := ParseRest(rest).value;
            (version.Some? ==> IsName(version.value)) && OriginValid(origin)
            && FormatVersion(version) + FormatOrigin(origin) == rest
  {
    var v := if rest != "" && rest[0] == ' ' then NameLength(rest[1..]) else 0;
    if v == 0 {
      OriginParsesExactly(rest);
      assert "" + rest == rest;
    } else {
      OriginParsesExactly(rest[1 + v..]);
      hide NameLength, ParseOrigin, FormatOrigin;
      assert rest[1..1 + v] == rest[1..][..v];
      assert rest == " " + rest[1..1 + v] + rest[1 + v..];
    }
  }

  /** ... and whatever is accepted is the written form of a well-formed reference. */
  lemma ReferenceParsesExactly(s: string)
    requires ParseReference(s).Some?
    ensures ReferenceValid(ParseReference(s).value) && FormatReference(ParseReference(s).value) == s
  {
    var n := NameLength(s);
    RestParsesExactly(s[n..]);
    hide NameLength, ParseRest, FormatVersion, FormatOrigin;
    assert s == s[..n] + s[n..];
  }

  lemma OriginParsesExactly(s: string)
    requires ParseOrigin(s).Some?
    ensures OriginValid(ParseOrigin(s).value) && FormatOrigin(ParseOrigin(s).value) == s
  {
    if s != "" {
      assert s == " (" + s[2..|s| - 1] + ")";
    }
  }

  // ----- Resolution -----

  type Lock = seq<Package>

  predicate Matches(p: Package, r: Reference) {
    && p.id.name == r.name
    && (r.version.Some? ==> r.version.value == p.id.version)
    && (r.origin.Some? ==> r.origin == p.id.source)
  }

  function Candidates(lock: Lock, r: Reference): (c: seq<Package>)
    ensures forall p :: p in c <==> p in lock && Matches(p, r)
  {
    if lock == [] then []
    else
      var front, last := lock[..|lock| - 1], lock[|lock| - 1];
      assert lock == front + [last];
      Candidates(front, r) + (if Matches(last, r) then [last] else [])
  }

  /** A reference must match exactly one locked package. */
  function Resolve(lock: Lock, reference: string): (r: Result<Package>)
    ensures r.Ok? ==> r.value in lock
  {
    match ParseReference(reference)
    case None => Err(UnsupportedReference(reference))
    case Some(ref) =>
      var c := Candidates(lock, ref);
      if |c| == 1 then assert c[0] in c; Ok(c[0]) else Err(MissingOrAmbiguous(reference))
  }

  /** `r` is the package's own full reference with nothing, the version, the source or both left out. */
  ghost predicate Abbreviates(r: Reference, p: Package) {
    r in {Reference(p.id.name, Some(p.id.version), p.id.source), Reference(p.id.name, None, p.id.source),
          Reference(p.id.name, Some(p.id.version), None), Reference(p.id.name, None, None)}
  }

  lemma {:induction false} CandidatesOne(lock: Lock, r: Reference, i: nat)
    requires i < |lock| && Matches(lock[i], r) && forall j :: 0 <= j < |lock| && j != i ==> !Matches(lock[j], r)
    ensures Candidates(lock, r) == [lock[i]]
    decreases |lock|
  {
    var n := |lock| - 1;
    if i < n {
      CandidatesOne(lock[..n], r, i);
    } else {
      CandidatesNone(lock[..n], r);
    }
  }

  lemma {:induction false} CandidatesNone(lock: Lock, r: Reference)
    requires forall j :: 0 <= j < |lock| ==> !Matches(lock[j], r)
    ensures Candidates(lock, r) == []
  {
    if lock != [] {
      CandidatesNone(lock[..|lock| - 1], r);
    }
  }

  lemma {:induction false} CandidatesTwo(lock: Lock, r: Reference, i: nat, j: nat)
    requires i < j < |lock| && Matches(lock[i], r) && Matches(lock[j], r)
    ensures |Candidates(lock, r)| >= 2
    decreases |lock|
  {
    var n := |lock| - 1;
    if j < n {
      CandidatesTwo(lock[..n], r, i, j);
    } else {
      assert lock[..n][i] == lock[i];
      assert lock[i] in Candidates(lock[..n], r);
    }
  }

  /** A written reference finds a package exactly if it abbreviates that package's own reference and that of no
      other locked one. */
  lemma ResolveExactly(lock: Lock, r: Reference, p: Package)
    requires ReferenceValid(r)
    ensures Resolve(lock, FormatReference(r)) == Ok(p) <==>
            exists i :: 0 <= i < |lock| && lock[i] == p && OnlyAbbreviated(lock, r, i)
  {
    ReferenceRoundTrip(r);
    hide ParseReference, FormatReference;
    assert forall q :: Matches(q, r) <==> Abbreviates(r, q);
    var c := Candidates(lock, r);
    if i :| 0 <= i < |lock| && lock[i] == p && OnlyAbbreviated(lock, r, i) {
      CandidatesOne(lock, r, i);
    } else if |c| == 1 && c[0] == p {
      assert p in c;
      var i :| 0 <= i < |lock| && lock[i] == p;
      if j :| 0 <= j < |lock| && j != i && Matches(lock[j], r) {
        CandidatesTwo(lock, r, if i < j then i else j, if i < j then j else i);
      }
    }
  }

  ghost predicate OnlyAbbreviated(lock: Lock, r: Reference, i: nat)
    requires i < |lock|
  {
    Abbreviates(r, lock[i]) && forall j :: 0 <= j < |lock| && j != i ==> !Abbreviates(r, lock[j])
  }

  ghost predicate SameButChecksum(a: Identity, b: Identity) {
    a.name == b.name && a.version == b.version && a.source == b.source
  }

  /** In particular a package with a source is found by its full reference, unless the lock has it twice with
      different checksums. */
  lemma FullReferenceResolves(lock: Lock, p: Package)
    requires p in lock && Indexed(lock) && p.id.source.Some?
    requires ReferenceValid(Reference(p.id.name, Some(p.id.version), p.id.source))
    requires forall q :: q in lock && SameButChecksum(q.id, p.id) ==> q.id.checksum == p.id.checksum
    ensures Resolve(lock, FormatReference(Reference(p.id.name, Some(p.id.version), p.id.source))) == Ok(p)
  {
    var r := Reference(p.id.name, Some(p.id.version), p.id.source);
    var i :| 0 <= i < |lock| && lock[i] == p;
    forall j | 0 <= j < |lock| && j != i ensures !Abbreviates(r, lock[j]) {
      assert lock[j] in lock && lock[j].id != lock[i].id;
    }
    assert OnlyAbbreviated(lock, r, i);
    ResolveExactly(lock, r, p);
  }

  /** `lock_index` accepts a lock whose packages have distinct identities. */
  predicate Indexed(lock: Lock) {
    forall i, j | 0 <= i < j < |lock| :: lock[i].id != lock[j].id
  }

  lemma IdentityDetermines(lock: Lock, p: Package, q: Package)
    requires Indexed(lock) && p in lock && q in lock && p.id == q.id
    ensures p == q
  {
    var i :| 0 <= i < |lock| && lock[i] == p;
    var j :| 0 <= j < |lock| && lock[j] == q;
  }

  // ----- Reachability -----

  ghost predicate Edge(lock: Lock, p: Package, q: Package) {
    exists k :: 0 <= k < |p.dependencies| && Resolve(lock, p.dependencies[k]) == Ok(q)
  }

  ghost predicate DependencyPath(lock: Lock, seeds: seq<Package>, path: seq<Package>) {
    && |path| > 0 && path[0] in seeds
    && forall i {:trigger path[i]} :: 0 < i < |path| ==> Edge(lock, path[i - 1], path[i])
  }

  ghost predicate Reachable(lock: Lock, seeds: seq<Package>, p: Package) {
    exists path :: DependencyPath(lock, seeds, path) && path[|path| - 1] == p
  }

  /** The package may be in the projection: it is external or selected, and all its dependencies resolve. */
  ghost predicate Sound(lock: Lock, localNames: set<string>, p: Package) {
    && (p.id.source.Some? || p.id.name in localNames)
    && forall k :: 0 <= k < |p.dependencies| ==> Resolve(lock, p.dependencies[k]).Ok?
  }

  lemma SeedReachable(lock: Lock, seeds: seq<Package>, p: Package)
    requires p in seeds
    ensures Reachable(lock, seeds, p)
  {
    assert DependencyPath(lock, seeds, [p]);
    assert [p][|[p]| - 1] == p;
  }

  lemma EdgeReachable(lock: Lock, seeds: seq<Package>, p: Package, q: Package)
    requires Reachable(lock, seeds, p) && Edge(lock, p, q)
    ensures Reachable(lock, seeds, q)
  {
    var path :| DependencyPath(lock, seeds, path) && path[|path| - 1] == p;
    var longer := path + [q];
    assert DependencyPath(lock, seeds, longer);
    assert longer[|longer| - 1] == q;
  }

  /** A set with the seeds in it and closed under dependencies has everything reachable in it. */
  lemma {:induction false} ClosedContainsReachable(lock: Lock, seeds: seq<Package>, closed: set<Package>, path: seq<Package>)
    requires forall p :: p in seeds ==> p in closed
    requires forall p, q :: p in closed && Edge(lock, p, q) ==> q in closed
    requires DependencyPath(lock, seeds, path)
    ensures path[|path| - 1] in closed
    decreases |path|
  {
    if |path| > 1 {
      var front := path[..|path| - 1];
      assert DependencyPath(lock, seeds, front);
      ClosedContainsReachable(lock, seeds, closed, front);
      assert Edge(lock, front[|front| - 1], path[|path| - 1]);
    }
  }

  /** The resolved dependencies of a package, or the first error. */
  function ResolveAll(lock: Lock, references: seq<string>): Result<seq<Package>> {
    if references == [] then Ok([])
    else
      match ResolveAll(lock, references[..|references| - 1])
      case Err(e) => Err(e)
      case Ok(ps) =>
        match Resolve(lock, references[|references| - 1])
        case Err(e) => Err(e)
        case Ok(p) => Ok(ps + [p])
  }

  lemma {:induction false} ResolveAllExactly(lock: Lock, references: seq<string>)
    ensures ResolveAll(lock, references).Ok? <==> forall k :: 0 <= k < |references| ==> Resolve(lock, references[k]).Ok?
    ensures ResolveAll(lock, references).Ok? ==>
              var ps := ResolveAll(lock, references).value;
              |ps| == |references| && forall k :: 0 <= k < |ps| ==> Resolve(lock, references[k]) == Ok(ps[k])
  {
    hide Resolve;
    if references != [] {
      var front := references[..|references| - 1];
      ResolveAllExactly(lock, front);
      assert forall k :: 0 <= k < |front| ==> references[k] == front[k];
    }
  }

  // ----- The projection -----

  /** `q` has been reached or is about to be looked at. */
  ghost predicate Known(reached: map<Identity, Package>, pending: seq<Package>, q: Package) {
    q in pending || (q.id in reached && reached[q.id] == q)
  }

  ghost predicate ReachedValid(lock: Lock, seeds: seq<Package>, localNames: set<string>, reached: map<Identity, Package>) {
    forall id :: id in reached ==>
      var p := reached[id];
      p.id == id && p in lock && Reachable(lock, seeds, p) && Sound(lock, localNames, p)
  }

  ghost predicate PendingValid(lock: Lock, seeds: seq<Package>, pending: seq<Package>) {
    forall i :: 0 <= i < |pending| ==> pending[i] in lock && Reachable(lock, seeds, pending[i])
  }

  /** Everything one step away from what was reached is known. */
  ghost predicate Closing(lock: Lock, seeds: seq<Package>, reached: map<Identity, Package>, pending: seq<Package>) {
    && (forall p :: p in seeds ==> Known(reached, pending, p))
    && (forall id, q :: id in reached && Edge(lock, reached[id], q) ==> Known(reached, pending, q))
  }

  ghost predicate AllSound(lock: Lock, seeds: seq<Package>, localNames: set<string>) {
    forall p :: Reachable(lock, seeds, p) ==> Sound(lock, localNames, p)
  }

  /** The table holds the packages reachable from the seeds, under their identities, and no others. */
  ghost predicate ExactlyReachable(lock: Lock, seeds: seq<Package>, table: map<Identity, Package>) {
    && (forall id :: id in table ==> table[id].id == id)
    && (forall p :: Reachable(lock, seeds, p) <==> p.id in table && table[p.id] == p)
  }

  /** The worklist loop of `cargo_projection`. It succeeds exactly if every package the seeds need is external
      or selected and can be resolved further, and then has reached exactly those packages. */
  method Walk(lock: Lock, seeds: seq<Package>, localNames: set<string>) returns (r: Result<map<Identity, Package>>)
    requires Indexed(lock) && forall p :: p in seeds ==> p in lock
    ensures r.Ok? <==> AllSound(lock, seeds, localNames)
    ensures r.Ok? ==> ExactlyReachable(lock, seeds, r.value)
  {
    hide Reachable, Sound, Edge, Resolve, ResolveAll, ReachedValid, PendingValid, Closing, Indexed, AllSound, ExactlyReachable, IdsOf;
    var pending, reached := seeds, map[];
    WalkBegins(lock, seeds, localNames);
    while pending != []
      invariant PendingValid(lock, seeds, pending)
      invariant ReachedValid(lock, seeds, localNames, reached)
      invariant Closing(lock, seeds, reached, pending)
      decreases |IdsOf(lock) - reached.Keys|, |pending|
    {
      var p := pending[|pending| - 1];
      var rest := pending[..|pending| - 1];
      PopPending(lock, seeds, pending);
      if p.id in reached {
        AlreadyReached(lock, seeds, localNames, reached, pending);
        pending := rest;
        continue;
      }
      if p.id.source.None? && p.id.name !in localNames {
        EscapeIsUnsound(lock, seeds, localNames, p);
        return Err(Escapes(p.id));
      }
      var deps := ResolveAll(lock, p.dependencies);
      ResolveAllExactly(lock, p.dependencies);
      if deps.Err? {
        UnresolvedIsUnsound(lock, seeds, localNames, p);
        return Err(deps.error);
      }
      Visit(lock, seeds, localNames, reached, pending, deps.value);
      Shrinks(lock, reached, p);
      reached := reached[p.id := p];
      pending := rest + deps.value;
    }
    WalkEnds(lock, seeds, localNames, reached);
    r := Ok(reached);
  }

  ghost function IdsOf(lock: Lock): set<Identity> {
    set p | p in lock :: p.id
  }

  lemma Shrinks(lock: Lock, reached: map<Identity, Package>, p: Package)
    requires p in lock && p.id !in reached
    ensures |IdsOf(lock) - reached[p.id := p].Keys| < |IdsOf(lock) - reached.Keys|
  {
    var ids := IdsOf(lock);
    assert p.id in ids;
    var less := ids - reached[p.id := p].Keys;
    assert ids - reached.Keys == less + {p.id};
  }

  lemma WalkBegins(lock: Lock, seeds: seq<Package>, localNames: set<string>)
    requires forall p :: p in seeds ==> p in lock
    ensures PendingValid(lock, seeds, seeds) && ReachedValid(lock, seeds, localNames, map[]) && Closing(lock, seeds, map[], seeds)
  {
    hide Reachable;
    forall i | 0 <= i < |seeds| ensures Reachable(lock, seeds, seeds[i]) {
      SeedReachable(lock, seeds, seeds[i]);
    }
  }

  lemma PopPending(lock: Lock, seeds: seq<Package>, pending: seq<Package>)
    requires PendingValid(lock, seeds, pending) && pending != []
    ensures PendingValid(lock, seeds, pending[..|pending| - 1])
    ensures pending[|pending| - 1] in lock && Reachable(lock, seeds, pending[|pending| - 1])
  {
  }

  lemma AlreadyReached(lock: Lock, seeds: seq<Package>, localNames: set<string>, reached: map<Identity, Package>, pending: seq<Package>)
    requires Indexed(lock) && PendingValid(lock, seeds, pending) && ReachedValid(lock, seeds, localNames, reached)
    requires Closing(lock, seeds, reached, pending) && pending != [] && pending[|pending| - 1].id in reached
    ensures Closing(lock, seeds, reached, pending[..|pending| - 1])
  {
    hide Reachable, Sound, Edge;
    var p, rest := pending[|pending| - 1], pending[..|pending| - 1];
    IdentityDetermines(lock, p, reached[p.id]);
    forall q | Known(reached, pending, q) ensures Known(reached, rest, q) {
      if q in pending && q != p {
        var i :| 0 <= i < |pending| && pending[i] == q;
        assert rest[i] == q;
      }
    }
  }

  lemma EscapeIsUnsound(lock: Lock, seeds: seq<Package>, localNames: set<string>, p: Package)
    requires p.id.source.None? && p.id.name !in localNames && Reachable(lock, seeds, p)
    ensures !AllSound(lock, seeds, localNames)
  {
    hide Resolve, Reachable;
    assert !Sound(lock, localNames, p);
  }

  lemma UnresolvedIsUnsound(lock: Lock, seeds: seq<Package>, localNames: set<string>, p: Package)
    requires !(forall k :: 0 <= k < |p.dependencies| ==> Resolve(lock, p.dependencies[k]).Ok?) && Reachable(lock, seeds, p)
    ensures !AllSound(lock, seeds, localNames)
  {
    hide Resolve, Reachable;
    assert !Sound(lock, localNames, p);
  }

  /** Looking at a new package keeps the conditions of the walk. */
  lemma Visit(lock: Lock, seeds: seq<Package>, localNames: set<string>, reached: map<Identity, Package>,
              pending: seq<Package>, deps: seq<Package>)
    requires PendingValid(lock, seeds, pending) && ReachedValid(lock, seeds, localNames, reached)
    requires Closing(lock, seeds, reached, pending) && pending != []
    requires var p := pending[|pending| - 1];
             && p.id !in reached && (p.id.source.Some? || p.id.name in localNames)
             && |deps| == |p.dependencies|
             && forall k :: 0 <= k < |deps| ==> Resolve(lock, p.dependencies[k]) == Ok(deps[k])
    ensures var p, rest := pending[|pending| - 1], pending[..|pending| - 1];
            && PendingValid(lock, seeds, rest + deps)
            && ReachedValid(lock, seeds, localNames, reached[p.id := p])
            && Closing(lock, seeds, reached[p.id := p], rest + deps)
  {
    hide Reachable, ParseReference, Candidates;
    var p, rest := pending[|pending| - 1], pending[..|pending| - 1];
    forall k | 0 <= k < |deps| ensures deps[k] in lock && Reachable(lock, seeds, deps[k]) {
      assert Resolve(lock, p.dependencies[k]) == Ok(deps[k]);
      assert Edge(lock, p, deps[k]);
      EdgeReachable(lock, seeds, p, deps[k]);
    }
    assert Sound(lock, localNames, p);
    forall q | Known(reached, pending, q) ensures Known(reached[p.id := p], rest + deps, q) {
      if q in pending && q != p {
        var i :| 0 <= i < |pending| && pending[i] == q;
        assert (rest + deps)[i] == q;
      }
    }
    forall q | Edge(lock, p, q) ensures Known(reached[p.id := p], rest + deps, q) {
      var k :| 0 <= k < |p.dependencies| && Resolve(lock, p.dependencies[k]) == Ok(q);
      assert (rest + deps)[|rest| + k] == q;
    }
    var more := reached[p.id := p];
    forall id, q | id in more && Edge(lock, more[id], q) ensures Known(more, rest + deps, q) {
      if id != p.id {
        assert Known(reached, pending, q);
      }
    }
  }

  lemma WalkEnds(lock: Lock, seeds: seq<Package>, localNames: set<string>, reached: map<Identity, Package>)
    requires ReachedValid(lock, seeds, localNames, reached) && Closing(lock, seeds, reached, [])
    ensures ExactlyReachable(lock, seeds, reached) && AllSound(lock, seeds, localNames)
  {
    hide Sound, Edge, Reachable;
    forall p | Reachable(lock, seeds, p) ensures p.id in reached && reached[p.id] == p {
      ReachedAll(lock, seeds, localNames, reached, p);
    }
  }

  lemma ReachedAll(lock: Lock, seeds: seq<Package>, localNames: set<string>, reached: map<Identity, Package>, p: Package)
    requires ReachedValid(lock, seeds, localNames, reached) && Closing(lock, seeds, reached, [])
    requires Reachable(lock, seeds, p)
    ensures p.id in reached && reached[p.id] == p
  {
    var path :| DependencyPath(lock, seeds, path) && path[|path| - 1] == p;
    hide Sound, Edge, DependencyPath, Reachable;
    var closed := set id | id in reached :: reached[id];
    forall q | q in seeds ensures q in closed {
      assert Known(reached, [], q);
    }
    forall x, y | x in closed && Edge(lock, x, y) ensures y in closed {
      assert Known(reached, [], y);
    }
    ClosedContainsReachable(lock, seeds, closed, path);
  }

  /** A selected package: what its manifest says about itself. */
  datatype Selected = Selected(name: string, version: string)

  function LocalCandidates(lock: Lock, s: Selected): (c: seq<Package>)
    ensures forall p :: p in c <==> p in lock && p.id.name == s.name && p.id.version == s.version && p.id.source.None?
  {
    if lock == [] then []
    else
      var front, last := lock[..|lock| - 1], lock[|lock| - 1];
      assert lock == front + [last];
      LocalCandidates(front, s)
      + (if last.id.name == s.name && last.id.version == s.version && last.id.source.None? then [last] else [])
  }

  ghost predicate LockedOnce(lock: Lock, s: Selected) {
    |LocalCandidates(lock, s)| == 1
  }

  ghost predicate OnlyCandidate(lock: Lock, s: Selected, p: Package) {
    LocalCandidates(lock, s) == [p]
  }

  /** The locked packages of the selection, if each is locked exactly once. */
  function Seeds(lock: Lock, selected: seq<Selected>): Option<seq<Package>> {
    if selected == [] then Some([])
    else
      match Seeds(lock, selected[..|selected| - 1])
      case None => None
      case Some(ps) =>
        var c := LocalCandidates(lock, selected[|selected| - 1]);
        if |c| == 1 then Some(ps + c) else None
  }

  lemma {:induction false} SeedsExactly(lock: Lock, selected: seq<Selected>)
    ensures Seeds(lock, selected).Some? <==>
            forall i :: 0 <= i < |selected| ==> LockedOnce(lock, selected[i])
    ensures Seeds(lock, selected).Some? ==>
              var ps := Seeds(lock, selected).value;
              |ps| == |selected| && forall i :: 0 <= i < |ps| ==> OnlyCandidate(lock, selected[i], ps[i])
  {
    hide LocalCandidates;
    if selected != [] {
      var front := selected[..|selected| - 1];
      SeedsExactly(lock, front);
      assert forall i :: 0 <= i < |front| ==> selected[i] == front[i];
      var c := LocalCandidates(lock, selected[|front|]);
      assert |c| == 1 ==> OnlyCandidate(lock, selected[|front|], c[0]);
    }
  }

  lemma OnlyCandidateLocked(lock: Lock, s: Selected, p: Package)
    requires OnlyCandidate(lock, s, p)
    ensures p in lock && p.id.source.None?
  {
    assert LocalCandidates(lock, s)[0] == p;
  }

  lemma {:induction false} SeedsLocked(lock: Lock, selected: seq<Selected>)
    requires Seeds(lock, selected).Some?
    ensures forall p :: p in Seeds(lock, selected).value ==> p in lock && p.id.source.None?
  {
    SeedsExactly(lock, selected);
    hide Seeds, OnlyCandidate;
    var ps := Seeds(lock, selected).value;
    forall i | 0 <= i < |ps| ensures ps[i] in lock && ps[i].id.source.None? {
      OnlyCandidateLocked(lock, selected[i], ps[i]);
    }
  }

  function Names(selected: seq<Selected>): (names: set<string>)
    ensures forall n :: n in names <==> exists i :: 0 <= i < |selected| && selected[i].name == n
  {
    set i | 0 <= i < |selected| :: selected[i].name
  }

  /** `cargo_projection`, up to its patch table: every package the selection needs, and no other. */
  method Project(lock: Lock, selected: seq<Selected>) returns (r: Result<map<Identity, Package>>)
    ensures r.Ok? <==> Indexed(lock) && Seeds(lock, selected).Some?
                       && AllSound(lock, Seeds(lock, selected).value, Names(selected))
    ensures r.Ok? ==> ExactlyReachable(lock, Seeds(lock, selected).value, r.value)
  {
    hide AllSound, ExactlyReachable, Seeds;
    if !Indexed(lock) {
      return Err(DuplicateIdentity);
    }
    var seeds := Seeds(lock, selected);
    if seeds.None? {
      return Err(SelectionNotLocked);
    }
    SeedsLocked(lock, selected);
    r := Walk(lock, seeds.value, Names(selected));
  }

  // ----- Validating a projected lock -----

  datatype LockFile = LockFile(version: nat, sections: set<string>, packages: Lock)

  function IdsIn(lock: Lock): (r: set<Identity>)
    ensures forall id :: id in r <==> exists i :: 0 <= i < |lock| && lock[i].id == id
  {
    set i | 0 <= i < |lock| :: lock[i].id
  }

  function Lookup(lock: Lock, id: Identity): (r: Option<Package>)
    ensures r.Some? ==> r.value in lock && r.value.id == id
    ensures r.None? ==> forall p :: p in lock ==> p.id != id
  {
    if lock == [] then None
    else
      var front, last := lock[..|lock| - 1], lock[|lock| - 1];
      assert lock == front + [last];
      if last.id == id then Some(last) else Lookup(front, id)
  }

  /** The check of one projected package against the original lock. */
  function CheckPackage(original: Lock, projected: Lock, p: Package): Option<Error> {
    match Lookup(original, p.id)
    case None => Some(UnknownOriginal)
    case Some(o) =>
      if p.other != o.other then Some(MetadataChanged)
      else
        match ResolveAll(original, o.dependencies)
        case Err(e) => Some(e)
        case Ok(oldDeps) =>
          match ResolveAll(projected, p.dependencies)
          case Err(e) => Some(e)
          case Ok(newDeps) => if IdsIn(newDeps) <= IdsIn(oldDeps) then None else Some(NewEdge)
  }

  function CheckPackages(original: Lock, projected: Lock, ps: seq<Package>): Option<Error> {
    if ps == [] then None
    else
      match CheckPackage(original, projected, ps[0])
      case Some(e) => Some(e)
      case None => CheckPackages(original, projected, ps[1..])
  }

  /** `validate_lock_projection`; `allowed` are the identities of the projection. */
  function ValidateProjection(original: LockFile, projected: LockFile, allowed: set<Identity>): Result<LockFile> {
    if !(projected.sections <= {"version", "package"}) then Err(UnreviewedSections)
    else if projected.version != original.version then Err(VersionChanged)
    else if !Indexed(original.packages) || !Indexed(projected.packages) then Err(DuplicateIdentity)
    else if !(IdsIn(projected.packages) <= allowed) then Err(NewPackage)
    else if !(forall id | id in allowed :: id.source.None? ==> id in IdsIn(projected.packages)) then Err(LostLocalPackage)
    else
      match CheckPackages(original.packages, projected.packages, projected.packages)
      case Some(e) => Err(e)
      case None => Ok(projected)
  }

  /** `p` is a package of the original lock with some of its dependencies left out. */
  ghost predicate Pruned(original: Lock, projected: Lock, p: Package) {
    exists o :: o in original && o.id == p.id && o.other == p.other
                && ResolveAll(original, o.dependencies).Ok? && ResolveAll(projected, p.dependencies).Ok?
                && forall q :: Edge(projected, p, q) ==> KeptEdge(original, o, q.id)
  }

  ghost predicate KeptEdge(original: Lock, o: Package, id: Identity) {
    exists q :: Edge(original, o, q) && q.id == id
  }

  lemma IdsOfEdges(lock: Lock, p: Package)
    requires ResolveAll(lock, p.dependencies).Ok?
    ensures forall id :: id in IdsIn(ResolveAll(lock, p.dependencies).value) <==> KeptEdge(lock, p, id)
  {
    hide Resolve;
    ResolveAllExactly(lock, p.dependencies);
    var ps := ResolveAll(lock, p.dependencies).value;
    hide ResolveAll;
    forall id ensures id in IdsIn(ps) <==> KeptEdge(lock, p, id) {
      if id in IdsIn(ps) {
        var k :| 0 <= k < |ps| && ps[k].id == id;
        assert Resolve(lock, p.dependencies[k]) == Ok(ps[k]);
        assert Edge(lock, p, ps[k]);
      }
      if KeptEdge(lock, p, id) {
        var q :| Edge(lock, p, q) && q.id == id;
        var k :| 0 <= k < |p.dependencies| && Resolve(lock, p.dependencies[k]) == Ok(q);
        assert ps[k].id == id;
      }
    }
  }

  lemma CheckPackageExactly(original: Lock, projected: Lock, p: Package)
    requires Indexed(original)
    ensures CheckPackage(original, projected, p).None? <==> Pruned(original, projected, p)
  {
    hide Edge, ResolveAll, IdsIn, KeptEdge;
    match Lookup(original, p.id)
    case None =>
    case Some(o) =>
      if ResolveAll(original, o.dependencies).Ok? && ResolveAll(projected, p.dependencies).Ok? {
        IdsOfEdges(original, o);
        IdsOfEdges(projected, p);
        EdgesKept(original, projected, o, p);
      }
      forall x | x in original && x.id == p.id ensures x == o {
        IdentityDetermines(original, x, o);
      }
  }

  lemma EdgesKept(original: Lock, projected: Lock, o: Package, p: Package)
    ensures (forall id :: KeptEdge(projected, p, id) ==> KeptEdge(original, o, id))
            <==> forall q :: Edge(projected, p, q) ==> KeptEdge(original, o, q.id)
  {
    hide Edge;
    if forall q :: Edge(projected, p, q) ==> KeptEdge(original, o, q.id) {
      forall id | KeptEdge(projected, p, id) ensures KeptEdge(original, o, id) {
        var q :| Edge(projected, p, q) && q.id == id;
      }
    }
    if forall id :: KeptEdge(projected, p, id) ==> KeptEdge(original, o, id) {
      forall q | Edge(projected, p, q) ensures KeptEdge(original, o, q.id) {
        assert KeptEdge(projected, p, q.id);
      }
    }
  }

  lemma {:induction false} CheckPackagesExactly(original: Lock, projected: Lock, ps: seq<Package>)
    requires Indexed(original)
    ensures CheckPackages(original, projected, ps).None? <==> forall i :: 0 <= i < |ps| ==> Pruned(original, projected, ps[i])
  {
    hide CheckPackage, Pruned;
    if ps != [] {
      CheckPackageExactly(original, projected, ps[0]);
      CheckPackagesExactly(original, projected, ps[1..]);
      assert forall i :: 0 < i < |ps| ==> ps[i] == ps[1..][i - 1];
    }
  }

  /** The projected lock keeps every package of the tree, adds nothing, and only leaves edges out. */
  ghost predicate PrunesOnly(original: LockFile, projected: LockFile, allowed: set<Identity>) {
    && projected.sections <= {"version", "package"} && projected.version == original.version
    && Indexed(original.packages) && Indexed(projected.packages)
    && (forall p :: p in projected.packages ==> p.id in allowed && Pruned(original.packages, projected.packages, p))
    && (forall id :: id in allowed && id.source.None? ==> exists p :: p in projected.packages && p.id == id)
  }

  lemma ValidatedExactly(original: LockFile, projected: LockFile, allowed: set<Identity>)
    ensures ValidateProjection(original, projected, allowed).Ok? <==> PrunesOnly(original, projected, allowed)
  {
    hide Pruned, CheckPackages;
    var ps := projected.packages;
    if Indexed(original.packages) {
      CheckPackagesExactly(original.packages, ps, ps);
    }
    assert IdsIn(ps) <= allowed <==> forall p :: p in ps ==> p.id in allowed by {
      forall p | p in ps ensures p.id in IdsIn(ps) {
        var i :| 0 <= i < |ps| && ps[i] == p;
        assert ps[i].id == p.id;
      }
    }
    forall id ensures id in IdsIn(ps) <==> exists p :: p in ps && p.id == id {
      if id in IdsIn(ps) {
        var i :| 0 <= i < |ps| && ps[i].id == id;
        assert ps[i] in ps;
      }
    }
  }

  /** An accepted projected lock holds only packages the selection needs, and all those of the tree. */
  lemma AcceptedIsWithinProjection(original: LockFile, projected: LockFile, seeds: seq<Package>, table: map<Identity, Package>)
    requires ExactlyReachable(original.packages, seeds, table)
    requires ValidateProjection(original, projected, table.Keys).Ok?
    ensures forall p :: p in projected.packages ==> exists o :: Reachable(original.packages, seeds, o) && o.id == p.id
    ensures forall o :: Reachable(original.packages, seeds, o) && o.id.source.None? ==>
                          exists p :: p in projected.packages && p.id == o.id
  {
    ValidatedExactly(original, projected, table.Keys);
    hide Reachable, Pruned, ValidateProjection;
    forall p | p in projected.packages ensures exists o :: Reachable(original.packages, seeds, o) && o.id == p.id {
      assert p.id in table && table[p.id].id == p.id;
      assert Reachable(original.packages, seeds, table[p.id]);
    }
  }

  /** Packages reachable from locked seeds are locked. */
  lemma {:induction false} PathLocked(lock: Lock, seeds: seq<Package>, path: seq<Package>)
    requires DependencyPath(lock, seeds, path) && forall p :: p in seeds ==> p in lock
    ensures path[|path| - 1] in lock
  {
    if |path| > 1 {
      assert Edge(lock, path[|path| - 2], path[|path| - 1]);
    }
  }

  /**
   Whatever can be reached in an accepted projected lock could be reached, as the same package, in the
   original: starting from the same packages, path by path.
   */
  lemma {:induction false} ProjectedPathWasPath(original: LockFile, projected: LockFile, allowed: set<Identity>,
                                                seeds: seq<Package>, originalSeeds: seq<Package>, path: seq<Package>)
    returns (o: Package)
    requires PrunesOnly(original, projected, allowed)
    requires forall p :: p in seeds ==> p in projected.packages && exists q :: q in originalSeeds && q.id == p.id
    requires forall p :: p in originalSeeds ==> p in original.packages
    requires DependencyPath(projected.packages, seeds, path)
    ensures o in original.packages && o.id == path[|path| - 1].id && Reachable(original.packages, originalSeeds, o)
    decreases |path|
  {
    hide Pruned, Edge, Indexed, Reachable;
    var p := path[|path| - 1];
    if |path| == 1 {
      o :| o in originalSeeds && o.id == p.id;
      SeedReachable(original.packages, originalSeeds, o);
    } else {
      var front := path[..|path| - 1];
      assert DependencyPath(projected.packages, seeds, front);
      var before := ProjectedPathWasPath(original, projected, allowed, seeds, originalSeeds, front);
      PathLocked(projected.packages, seeds, front);
      assert Edge(projected.packages, front[|front| - 1], p);
      o := LiftEdge(original.packages, projected.packages, front[|front| - 1], p, before);
      EdgeReachable(original.packages, originalSeeds, before, o);
      EdgeLocked(original.packages, before, o);
    }
  }

  lemma EdgeLocked(lock: Lock, p: Package, q: Package)
    requires Edge(lock, p, q)
    ensures q in lock
  {
  }

  lemma LiftEdge(original: Lock, projected: Lock, p: Package, q: Package, o: Package) returns (r: Package)
    requires Indexed(original) && Pruned(original, projected, p) && Edge(projected, p, q)
    requires o in original && o.id == p.id
    ensures Edge(original, o, r) && r.id == q.id
  {
    hide Edge, ResolveAll;
    var x :| x in original && x.id == p.id && x.other == p.other
             && ResolveAll(original, x.dependencies).Ok? && ResolveAll(projected, p.dependencies).Ok?
             && forall q :: Edge(projected, p, q) ==> KeptEdge(original, x, q.id);
    IdentityDetermines(original, x, o);
    r :| Edge(original, o, r) && r.id == q.id;
  }
}
