/** What the registry-cache rewriter does to image references. */
module ImageSpec {
  import opened Wrappers
  import opened YamlTree

  // ---------- settings ----------

  datatype Mirror = Mirror(
    enabled: bool, hostname: string, port: int, mode: string, useUpstreamPrefix: bool, preserveDigests: bool)

  /** `hostOptIn` is the flag of the host, if it has one. */
  datatype Input = Input(mirror: Option<Mirror>, hostOptIn: Option<bool>, stackDisabled: bool)

  /** `shouldRun`: whether rewriting runs, and whether the host must have opted in. */
  function ShouldRun(i: Input): (bool, bool) {
    if i.stackDisabled || i.mirror.None? || !i.mirror.value.enabled || i.mirror.value.hostname == "" then (false, false)
    else
      var mode := i.mirror.value.mode;
      if mode == "always" then (true, false)
      else if mode == "per-host" || mode == "" then (true, true)
      else (false, false)
  }

  predicate WillRewrite(i: Input) {
    ShouldRun(i).0 && (ShouldRun(i).1 ==> i.hostOptIn == Some(true))
  }

  // ---------- references ----------

  datatype Ref = Ref(domain: string, path: string, tag: Option<string>)

  /** Reference parsing and case-insensitive comparison. */
  datatype Library = Library(parse: string -> Option<Ref>, equalFold: (string, string) -> bool)

  function FirstPart(s: string): string {
    if s == "" || s[0] == '/' then "" else [s[0]] + FirstPart(s[1..])
  }

  /** A first component with a colon is the domain, or the reference does not parse; behind the
      first component, no slash follows a colon. */
  ghost predicate Lawful(lib: Library) {
    && (forall s: string :: lib.parse(s).Some? && FirstPart(s) < s && ':' in FirstPart(s) ==>
        lib.parse(s).value.domain == FirstPart(s))
    && (forall s: string, i: nat :: lib.parse(s).Some? && |FirstPart(s)| <= i < |s| && s[i] == ':' ==> '/' !in s[i..])
    && (forall s :: lib.equalFold(s, s))
  }

  function Decimal(n: nat): (s: string)
    ensures '/' !in s
  {
    if n < 10 then [('0' as int + n) as char] else Decimal(n / 10) + [('0' as int + n % 10) as char]
  }

  function Number(n: int): (s: string)
    ensures '/' !in s
  {
    if n < 0 then "-" + Decimal(-n) else Decimal(n)
  }

  /** `<hostname>:<port>`, port 5000 by default. */
  function Endpoint(m: Mirror): string { m.hostname + ":" + Number(if m.port == 0 then 5000 else m.port) }

  predicate Contains(s: string, part: string) {
    exists i :: 0 <= i <= |s| && part <= s[i..]
  }

  // ---------- one image ----------

  datatype Decision = Kept(reason: string) | Replaced(text: string, upstream: string, prefix: string)

  function Decide(lib: Library, m: Mirror, original: string): Decision {
    if m.preserveDigests && Contains(original, "@sha256:") then Kept("digest-preserved")
    else
      match lib.parse(original)
      case None => Kept("invalid-ref")
      case Some(ref) =>
        if lib.equalFold(ref.domain, Endpoint(m)) then Kept("already-mirror")
        else
          var tag := ":" + if ref.tag.Some? then ref.tag.value else "latest";
          if m.useUpstreamPrefix
          then Replaced(Endpoint(m) + "/" + ref.domain + "/" + ref.path + tag, ref.domain, ref.domain)
          else Replaced(Endpoint(m) + "/" + ref.path + tag, ref.domain, "")
  }

  const MARK := "swirl-managed-registry-cache:"

  function Marker(original: string): string { MARK + " original=" + original }

  /** The comment of an image that is rewritten. */
  function Marked(comment: string, original: string): string {
    if comment == "" then Marker(original)
    else if !Contains(comment, MARK) then comment + "\n" + Marker(original)
    else comment
  }

  // ---------- services ----------

  datatype Action = Action(
    service: string, original: string, rewritten: string, upstream: string, prefix: string, reason: string)

  function ActionOf(name: string, original: string, d: Decision): Action {
    match d
    case Kept(reason) => Action(name, original, "", "", "", reason)
    case Replaced(text, upstream, prefix) => Action(name, original, text, upstream, prefix, "")
  }

  /** The image a service is looked at for: a scalar that is not empty. */
  function ImageText(svc: Tree): Option<string> {
    match Get(svc, "image")
    case Some(Scalar(s)) => if s == "" then None else Some(s)
    case _ => None
  }

  /** What a service and the comment of its image become. */
  function Rewritten(lib: Library, m: Mirror, svc: Tree, comment: string): (Tree, string) {
    match ImageText(svc)
    case None => (svc, comment)
    case Some(original) =>
      match Decide(lib, m, original)
      case Kept(_) => (svc, comment)
      case Replaced(text, _, _) => (Put(svc, "image", Scalar(text)), Marked(comment, original))
  }

  function RewrittenEntry(lib: Library, m: Mirror, e: Entry): Entry {
    Entry(e.key, Rewritten(lib, m, e.val, "").0)
  }

  function RewrittenEntries(lib: Library, m: Mirror, es: seq<Entry>): seq<Entry> {
    seq(|es|, i requires 0 <= i < |es| => RewrittenEntry(lib, m, es[i]))
  }

  /** The comments of the images, service by service. */
  function RewrittenComments(lib: Library, m: Mirror, es: seq<Entry>, comments: seq<string>): seq<string>
    requires |comments| == |es|
  {
    seq(|es|, i requires 0 <= i < |es| => Rewritten(lib, m, es[i].val, comments[i]).1)
  }

  /** One action for every image looked at, in document order. */
  function Actions(lib: Library, m: Mirror, es: seq<Entry>): seq<Action> {
    if es == [] then []
    else
      var front, last := Actions(lib, m, es[..|es| - 1]), es[|es| - 1];
      match ImageText(last.val)
      case None => front
      case Some(original) => front + [ActionOf(Value(last.key), original, Decide(lib, m, original))]
  }

  predicate HasRewrite(actions: seq<Action>) { exists a :: a in actions && a.rewritten != "" }

  /** The actions of a document, if it has services to look at. */
  function DocumentActions(lib: Library, m: Mirror, doc: Tree): Option<seq<Action>> {
    match Get(doc, "services")
    case Some(Mapping(es)) => Some(Actions(lib, m, es))
    case _ => None
  }

  function RewrittenDocument(lib: Library, m: Mirror, doc: Tree): Tree {
    match Get(doc, "services")
    case Some(Mapping(es)) => Put(doc, "services", Mapping(RewrittenEntries(lib, m, es)))
    case _ => doc
  }
}
