/** Rewriting images twice is rewriting them once. */
module ImageLaws {
  import opened Wrappers
  import opened YamlTree
  import opened ImageSpec

  lemma {:induction false} FirstPartIs(a: string, b: string)
    requires '/' !in a
    ensures FirstPart(a + "/" + b) == a
  {
    if a == "" {
    } else {
      assert (a + "/" + b)[1..] == a[1..] + "/" + b;
      FirstPartIs(a[1..], b);
    }
  }

  lemma EndpointHasNoSlash(m: Mirror)
    requires '/' !in m.hostname
    ensures '/' !in Endpoint(m) && ':' in Endpoint(m)
  {
    var e := Endpoint(m);
    assert e[|m.hostname|] == ':';
  }

  lemma {:induction false} FirstPartIsShort(s: string, k: nat)
    requires k < |s| && s[k] == '/'
    ensures |FirstPart(s)| <= k
  {
    if k > 0 && s[0] != '/' {
      FirstPartIsShort(s[1..], k - 1);
    }
  }

  /** A host name with a slash puts a slash behind the colon of the port: no such text parses. */
  lemma SlashBehindColon(host: string, port: string, rest: string)
    requires '/' in host
    ensures var text := host + ":" + port + "/" + rest;
      |FirstPart(text)| <= |host| < |text| && text[|host|] == ':' && '/' in text[|host|..]
  {
    var text := host + ":" + port + "/" + rest;
    var k :| 0 <= k < |host| && host[k] == '/';
    FirstPartIsShort(text, k);
    assert text[|host|..][1 + |port|] == '/';
  }

  /** Otherwise the mirror is the domain of the text. */
  lemma MirrorIsDomain(lib: Library, m: Mirror, rest: string)
    requires Lawful(lib) && '/' !in m.hostname
    ensures var ref := lib.parse(Endpoint(m) + "/" + rest); ref.Some? ==> ref.value.domain == Endpoint(m)
  {
    EndpointHasNoSlash(m);
    FirstPartIs(Endpoint(m), rest);
  }

  /** What starts with the mirror is never rewritten. */
  lemma MirroredIsKept(lib: Library, m: Mirror, rest: string)
    requires Lawful(lib)
    ensures Decide(lib, m, Endpoint(m) + "/" + rest).Kept?
  {
    var text := Endpoint(m) + "/" + rest;
    if '/' in m.hostname {
      SlashBehindColon(m.hostname, Number(if m.port == 0 then 5000 else m.port), rest);
      assert lib.parse(text).None?;
    } else {
      MirrorIsDomain(lib, m, rest);
    }
  }

  /** What was rewritten points at the mirror, and is left alone from then on. */
  lemma RewrittenIsKept(lib: Library, m: Mirror, original: string)
    requires Lawful(lib) && Decide(lib, m, original).Replaced?
    ensures Decide(lib, m, Decide(lib, m, original).text).Kept?
    ensures Decide(lib, m, original).text != original && Decide(lib, m, original).text != ""
  {
    var text, e := Decide(lib, m, original).text, Endpoint(m);
    var ref := lib.parse(original).value;
    var tag := ":" + if ref.tag.Some? then ref.tag.value else "latest";
    var rest := if m.useUpstreamPrefix then ref.domain + "/" + ref.path + tag else ref.path + tag;
    assert text == e + "/" + rest;
    MirroredIsKept(lib, m, rest);
  }

  /** A service changes if and only if its action says so. */
  lemma ChangedMeansRewritten(lib: Library, m: Mirror, svc: Tree, comment: string, name: string)
    requires Lawful(lib)
    ensures Rewritten(lib, m, svc, comment).0 != svc <==>
      ImageText(svc).Some? && ActionOf(name, ImageText(svc).value, Decide(lib, m, ImageText(svc).value)).rewritten != ""
  {
    if ImageText(svc).Some? && Decide(lib, m, ImageText(svc).value).Replaced? {
      var text := Decide(lib, m, ImageText(svc).value).text;
      RewrittenIsKept(lib, m, ImageText(svc).value);
      GetPut(svc, "image", Scalar(text));
    }
  }

  /** On one service, a second pass changes neither the image nor its comment. */
  lemma ServiceSettles(lib: Library, m: Mirror, svc: Tree, comment: string)
    requires Lawful(lib)
    ensures var (svc', comment') := Rewritten(lib, m, svc, comment);
      && Rewritten(lib, m, svc', comment') == (svc', comment')
      && (ImageText(svc').Some? ==> Decide(lib, m, ImageText(svc').value).Kept?)
      && (ImageText(svc').Some? <==> ImageText(svc).Some?)
  {
    if ImageText(svc).Some? && Decide(lib, m, ImageText(svc).value).Replaced? {
      RewrittenIsKept(lib, m, ImageText(svc).value);
      GetPut(svc, "image", Scalar(Decide(lib, m, ImageText(svc).value).text));
    }
  }

  lemma {:induction false} SettledActions(lib: Library, m: Mirror, es: seq<Entry>)
    requires forall e :: e in es && ImageText(e.val).Some? ==> Decide(lib, m, ImageText(e.val).value).Kept?
    ensures !HasRewrite(Actions(lib, m, es))
  {
    if es != [] {
      SettledActions(lib, m, es[..|es| - 1]);
    }
  }

  /** A second pass under the same settings rewrites nothing. */
  lemma SecondPassRewritesNothing(lib: Library, m: Mirror, es: seq<Entry>, comments: seq<string>)
    requires Lawful(lib) && |comments| == |es|
    ensures var es', comments' := RewrittenEntries(lib, m, es), RewrittenComments(lib, m, es, comments);
      && RewrittenEntries(lib, m, es') == es'
      && RewrittenComments(lib, m, es', comments') == comments'
      && !HasRewrite(Actions(lib, m, es'))
      && |Actions(lib, m, es')| == |Actions(lib, m, es)|
  {
    var es', comments' := RewrittenEntries(lib, m, es), RewrittenComments(lib, m, es, comments);
    forall i | 0 <= i < |es|
      ensures RewrittenEntry(lib, m, es'[i]) == es'[i]
      ensures Rewritten(lib, m, es'[i].val, comments'[i]).1 == comments'[i]
      ensures ImageText(es'[i].val).Some? ==> Decide(lib, m, ImageText(es'[i].val).value).Kept?
    {
      ServiceSettles(lib, m, es[i].val, comments[i]);
      ServiceSettles(lib, m, es[i].val, "");
    }
    SettledActions(lib, m, es');
    SameNumberOfActions(lib, m, es);
  }

  lemma {:induction false} SameNumberOfActions(lib: Library, m: Mirror, es: seq<Entry>)
    requires Lawful(lib)
    ensures |Actions(lib, m, RewrittenEntries(lib, m, es))| == |Actions(lib, m, es)|
  {
    if es != [] {
      var front, last := es[..|es| - 1], es[|es| - 1];
      SameNumberOfActions(lib, m, front);
      ServiceSettles(lib, m, last.val, "");
      assert RewrittenEntries(lib, m, es)[..|es| - 1] == RewrittenEntries(lib, m, front);
    }
  }

  /** The whole document. */
  lemma RewritingIsIdempotent(lib: Library, m: Mirror, doc: Tree)
    requires Lawful(lib)
    ensures RewrittenDocument(lib, m, RewrittenDocument(lib, m, doc)) == RewrittenDocument(lib, m, doc)
  {
    match Get(doc, "services")
    case Some(Mapping(es)) =>
      var es' := RewrittenEntries(lib, m, es);
      SecondPassRewritesNothing(lib, m, es, seq(|es|, _ => ""));
      GetPut(doc, "services", Mapping(es'));
      PutPut(doc, "services", Mapping(es'), Mapping(es'));
    case _ =>
  }

  /** An action is that of the service at some place, which has an image to look at. */
  predicate ActsAt(lib: Library, m: Mirror, es: seq<Entry>, i: nat, a: Action) {
    && i < |es| && ImageText(es[i].val).Some?
    && var original := ImageText(es[i].val).value;
       a == ActionOf(Value(es[i].key), original, Decide(lib, m, original))
  }

  /** The places of the services with an image, ascending and none left out, and their actions. */
  ghost predicate InOrder(lib: Library, m: Mirror, es: seq<Entry>, at: seq<nat>, actions: seq<Action>) {
    && |at| == |actions|
    && (forall k :: 0 <= k < |at| ==> ActsAt(lib, m, es, at[k], actions[k]))
    && (forall j, k :: 0 <= j < k < |at| ==> at[j] < at[k])
    && (forall i :: 0 <= i < |es| && ImageText(es[i].val).Some? ==> i in at)
  }

  lemma NoImageMore(lib: Library, m: Mirror, es: seq<Entry>, e: Entry, at: seq<nat>, actions: seq<Action>)
    requires InOrder(lib, m, es, at, actions) && ImageText(e.val).None?
    ensures InOrder(lib, m, es + [e], at, actions)
  {
    assert forall i :: 0 <= i < |es| ==> (es + [e])[i] == es[i];
    assert forall k :: 0 <= k < |at| ==> ActsAt(lib, m, es, at[k], actions[k]);
  }

  lemma OneImageMore(lib: Library, m: Mirror, es: seq<Entry>, e: Entry, at: seq<nat>, actions: seq<Action>, a: Action)
    requires InOrder(lib, m, es, at, actions) && ActsAt(lib, m, es + [e], |es|, a)
    ensures InOrder(lib, m, es + [e], at + [|es|], actions + [a])
  {
    var at', actions' := at + [|es|], actions + [a];
    forall k | 0 <= k < |at'|
      ensures ActsAt(lib, m, es + [e], at'[k], actions'[k])
    {
      if k < |at| { assert ActsAt(lib, m, es, at[k], actions[k]); }
    }
    forall j, k | 0 <= j < k < |at'|
      ensures at'[j] < at'[k]
    {
      assert ActsAt(lib, m, es, at[j], actions[j]);
    }
    forall i | 0 <= i < |es + [e]| && ImageText((es + [e])[i].val).Some?
      ensures i in at'
    {
      if i < |es| {
        assert ImageText(es[i].val).Some? && i in at;
      } else {
        assert at'[|at|] == i;
      }
    }
  }

  /** Document order: the actions are those of the services with an image, one each. */
  lemma {:induction false} OneActionPerImage(lib: Library, m: Mirror, es: seq<Entry>) returns (at: seq<nat>)
    ensures InOrder(lib, m, es, at, Actions(lib, m, es))
  {
    at := [];
    if es != [] {
      var front, e := es[..|es| - 1], es[|es| - 1];
      at := OneActionPerImage(lib, m, front);
      assert es == front + [e];
      if ImageText(e.val).None? {
        NoImageMore(lib, m, front, e, at, Actions(lib, m, front));
      } else {
        var a := ActionOf(Value(e.key), ImageText(e.val).value, Decide(lib, m, ImageText(e.val).value));
        OneImageMore(lib, m, front, e, at, Actions(lib, m, front), a);
        at := at + [|front|];
      }
    }
  }

  /** A marker is written once: it is there after a rewrite, and no later rewrite, whatever its
      settings, adds another. */
  lemma MarkersDoNotStack(comment: string, original: string, next: string)
    ensures Contains(Marked(comment, original), MARK)
    ensures Marked(Marked(comment, original), next) == Marked(comment, original)
    ensures comment <= Marked(comment, original)
  {
    var marked := Marked(comment, original);
    if comment == "" {
      assert MARK <= marked[0..];
    } else if !Contains(comment, MARK) {
      assert marked[|comment| + 1..] == Marker(original);
      assert MARK <= marked[|comment| + 1..];
    }
  }

  // ---------- what a reference becomes ----------

  ghost predicate HasDigest(original: string) {
    exists i :: 0 <= i <= |original| && "@sha256:" <= original[i..]
  }

  /** The host and port of the mirror. */
  function MirrorName(m: Mirror): string {
    m.hostname + ":" + Number(if m.port == 0 then 5000 else m.port)
  }

  /** The references that are left alone: a digest that is to be preserved, what does not parse, and
      what is on the mirror already. */
  ghost predicate StaysAsIs(lib: Library, m: Mirror, original: string) {
    || (m.preserveDigests && HasDigest(original))
    || lib.parse(original).None?
    || lib.equalFold(lib.parse(original).value.domain, MirrorName(m))
  }

  /** The same image behind the mirror: its own path and tag, `latest` only where there is none, under
      the name of its registry if the settings ask for that. */
  function OnMirror(m: Mirror, ref: Ref): string {
    MirrorName(m) + "/" + (if m.useUpstreamPrefix then ref.domain + "/" else "") + ref.path
    + ":" + (match ref.tag case Some(tag) => tag case None => "latest")
  }

  lemma DecisionMeans(lib: Library, m: Mirror, original: string)
    ensures Decide(lib, m, original).Kept? <==> StaysAsIs(lib, m, original)
    ensures Decide(lib, m, original).Replaced? ==>
      Decide(lib, m, original).text == OnMirror(m, lib.parse(original).value)
  {
    assert HasDigest(original) <==> Contains(original, "@sha256:");
    if lib.parse(original).Some? {
      var ref := lib.parse(original).value;
      var tag := if ref.tag.Some? then ref.tag.value else "latest";
      assert MirrorName(m) == Endpoint(m);
      Assembled(Endpoint(m), ref.domain, ref.path, tag);
    }
  }

  lemma Assembled(mirror: string, domain: string, path: string, tag: string)
    ensures mirror + "/" + path + (":" + tag) == mirror + "/" + "" + path + ":" + tag
    ensures mirror + "/" + domain + "/" + path + (":" + tag) == mirror + "/" + (domain + "/") + path + ":" + tag
  {
  }

  /** What an action tells about the image it belongs to. */
  lemma ActionMeans(lib: Library, m: Mirror, es: seq<Entry>, i: nat, a: Action)
    requires ActsAt(lib, m, es, i, a)
    ensures Get(es[i].val, "image") == Some(Scalar(a.original)) && a.original != "" && a.service == Value(es[i].key)
    ensures if StaysAsIs(lib, m, a.original)
      then a.rewritten == "" && a.reason != "" && a.upstream == ""
      else
        && a.rewritten == OnMirror(m, lib.parse(a.original).value) && a.reason == ""
        && a.upstream == lib.parse(a.original).value.domain
        && a.prefix == if m.useUpstreamPrefix then a.upstream else ""
  {
    DecisionMeans(lib, m, a.original);
  }

  function MarkerOf(original: string): string { "swirl-managed-registry-cache: original=" + original }

  ghost predicate HasMark(comment: string) {
    exists i :: 0 <= i <= |comment| && "swirl-managed-registry-cache:" <= comment[i..]
  }

  /** The comment above an image that is replaced: it names what stood there first. */
  ghost function NoteOf(comment: string, original: string): string {
    if comment == "" then MarkerOf(original)
    else if HasMark(comment) then comment
    else comment + "\n" + MarkerOf(original)
  }

  lemma NoteIsMarked(comment: string, original: string)
    ensures Marked(comment, original) == NoteOf(comment, original)
  {
    assert Contains(comment, MARK) <==> HasMark(comment);
    assert Marker(original) == MarkerOf(original);
  }

  /** What a pass makes of a service and of the comment above its image: an image that has to go to the
      mirror is replaced and marked, once; nothing else changes. */
  lemma ServiceAfterPass(lib: Library, m: Mirror, svc: Tree, comment: string, key: string)
    ensures var (now, note) := Rewritten(lib, m, svc, comment); var image := Get(svc, "image");
      if image.Some? && image.value.Scalar? && image.value.text != "" && !StaysAsIs(lib, m, image.value.text) then
        && Get(now, "image") == Some(Scalar(OnMirror(m, lib.parse(image.value.text).value)))
        && (key != "image" ==> Get(now, key) == Get(svc, key))
        && note == NoteOf(comment, image.value.text)
      else now == svc && note == comment
  {
    if ImageText(svc).Some? {
      var original := ImageText(svc).value;
      DecisionMeans(lib, m, original);
      NoteIsMarked(comment, original);
      if Decide(lib, m, original).Replaced? {
        var text := Decide(lib, m, original).text;
        GetPut(svc, "image", Scalar(text));
        if key != "image" { GetPutOther(svc, "image", Scalar(text), key); }
      }
    }
  }

  /** What a pass makes of a document: service by service, in place, and nothing outside the services. */
  lemma DocumentAfterPass(lib: Library, m: Mirror, doc: Tree, field: string)
    ensures field != "services" ==> Get(RewrittenDocument(lib, m, doc), field) == Get(doc, field)
    ensures match Get(doc, "services")
      case Some(Mapping(es)) =>
        var now := Get(RewrittenDocument(lib, m, doc), "services");
        && now.Some? && now.value.Mapping? && |now.value.entries| == |es|
        && forall i :: 0 <= i < |es| ==> IsPassed(lib, m, es[i], now.value.entries[i])
      case _ => RewrittenDocument(lib, m, doc) == doc
  {
    match Get(doc, "services")
    case Some(Mapping(es)) =>
      GetPut(doc, "services", Mapping(RewrittenEntries(lib, m, es)));
      if field != "services" { GetPutOther(doc, "services", Mapping(RewrittenEntries(lib, m, es)), field); }
      forall i | 0 <= i < |es|
        ensures IsPassed(lib, m, es[i], RewrittenEntry(lib, m, es[i]))
      {
        forall key
          ensures EntryIsPassed(lib, m, es[i], RewrittenEntry(lib, m, es[i]), key)
        {
          ServiceAfterPass(lib, m, es[i].val, "", key);
        }
      }
    case _ =>
  }

  ghost predicate IsPassed(lib: Library, m: Mirror, was: Entry, now: Entry) {
    forall key: string :: EntryIsPassed(lib, m, was, now, key)
  }

  /** A service of a document before and after a pass, as far as one of its fields is concerned. */
  ghost predicate EntryIsPassed(lib: Library, m: Mirror, was: Entry, now: Entry, key: string) {
    var image := Get(was.val, "image");
    && now.key == was.key
    && if image.Some? && image.value.Scalar? && image.value.text != "" && !StaysAsIs(lib, m, image.value.text) then
         if key == "image" then Get(now.val, key) == Some(Scalar(OnMirror(m, lib.parse(image.value.text).value)))
         else Get(now.val, key) == Get(was.val, key)
       else now.val == was.val
  }

  /** When a pass runs at all. */
  lemma WhenItRuns(i: Input)
    ensures WillRewrite(i) <==>
      && !i.stackDisabled && i.mirror.Some? && i.mirror.value.enabled && i.mirror.value.hostname != ""
      && (if i.mirror.value.mode == "always" then true
          else i.mirror.value.mode in {"per-host", ""} && i.hostOptIn == Some(true))
  {
  }

  /** The number that digits stand for. */
  function Reading(s: string): nat {
    if s == "" then 0 else 10 * Reading(s[..|s| - 1]) + if '0' <= s[|s| - 1] <= '9' then s[|s| - 1] as nat - 48 else 0
  }

  /** Ports are written in decimal, without leading zeros. */
  lemma {:induction false} PortIsWritten(n: nat)
    ensures Reading(Decimal(n)) == n && forall c :: c in Decimal(n) ==> '0' <= c <= '9'
    ensures Decimal(n) != "" && (n > 0 ==> Decimal(n)[0] != '0')
  {
    if n >= 10 {
      PortIsWritten(n / 10);
      assert Decimal(n)[..|Decimal(n)| - 1] == Decimal(n / 10);
    } else {
      assert Decimal(n)[..0] == "";
    }
  }
}
