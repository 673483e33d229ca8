/** The rewriter at work on YAML nodes: image values and comments change in place. */
module ImageRewriter {
  import opened Wrappers
  import opened YamlTree
  import opened YamlNode
  import opened ImageSpec
  import opened ImageLaws

  /** `scalarField` and the change of the scalar it finds. */
  method SetImage(svc: Node, img: Node, ghost at: nat, text: string, comment: string)
    requires svc.Valid() && svc.Holds("image", img, at) && img.kind == ScalarNode
    modifies img, svc`views, svc`repr
    ensures svc.Valid() && svc.kind == old(svc.kind) && svc.repr == old(svc.repr)
    ensures svc.View() == Put(old(svc.View()), "image", Scalar(text))
    ensures svc.FieldComment("image") == comment
  {
    svc.FieldView("image", img, at);
    img.WriteScalar(text, comment);
    svc.OnlyChildMoved(2 * at + 1);
    svc.SettleField("image", img, at);
    svc.CommentIs("image", img, at);
  }

  /** What becomes of one image. */
  method Evaluate(lib: Library, m: Mirror, original: string) returns (d: Decision)
    ensures d == Decide(lib, m, original)
    ensures d.Kept? <==> StaysAsIs(lib, m, original)
    ensures d.Replaced? ==> d.text == OnMirror(m, lib.parse(original).value)
    ensures d.Replaced? ==> d.upstream == lib.parse(original).value.domain
    ensures d.Replaced? ==> d.prefix == if m.useUpstreamPrefix then d.upstream else ""
    ensures d.Kept? && m.preserveDigests && HasDigest(original) ==> d.reason == "digest-preserved"
    ensures d.Kept? && !(m.preserveDigests && HasDigest(original)) ==>
      d.reason == if lib.parse(original).None? then "invalid-ref" else "already-mirror"
  {
    DecisionMeans(lib, m, original);
    if m.preserveDigests && Contains(original, "@sha256:") {
      return Kept("digest-preserved");
    }
    var ref := lib.parse(original);
    if ref.None? {
      return Kept("invalid-ref");
    }
    var domain, mirror := ref.value.domain, Endpoint(m);
    if lib.equalFold(domain, mirror) {
      return Kept("already-mirror");
    }
    var tagPart := ":" + if ref.value.tag.Some? then ref.value.tag.value else "latest";
    if m.useUpstreamPrefix {
      return Replaced(mirror + "/" + domain + "/" + ref.value.path + tagPart, domain, domain);
    }
    return Replaced(mirror + "/" + ref.value.path + tagPart, domain, "");
  }

  function ActionFor(lib: Library, m: Mirror, name: string, svc: Tree): Option<Action> {
    match ImageText(svc)
    case None => None
    case Some(original) => Some(ActionOf(name, original, Decide(lib, m, original)))
  }

  function ActionAt(lib: Library, m: Mirror, e: Entry): Option<Action> { ActionFor(lib, m, Value(e.key), e.val) }

  /** What is known of a service once its image node has been found. */
  lemma FoundImage(svc: Node, img: Node, at: nat)
    requires svc.Valid() && svc.Holds("image", img, at)
    ensures ImageText(svc.View()) == if img.kind == ScalarNode && img.value != "" then Some(img.value) else None
    ensures svc.FieldComment("image") == img.comment
  {
    svc.FieldView("image", img, at);
    svc.CommentIs("image", img, at);
  }

  /** The image of a service is looked at, and replaced if need be. */
  method RewriteFound(lib: Library, m: Mirror, svc: Node, img: Node, ghost at: nat) returns (d: Decision)
    requires svc.Valid() && svc.Holds("image", img, at) && img.kind == ScalarNode && img.value != ""
    modifies img, svc`views, svc`repr
    ensures svc.Valid() && svc.kind == old(svc.kind) && svc.repr == old(svc.repr)
    ensures d == Decide(lib, m, old(img.value))
    ensures svc.View() == if d.Replaced? then Put(old(svc.View()), "image", Scalar(d.text)) else old(svc.View())
    ensures svc.FieldComment("image") ==
      if d.Replaced? then Marked(old(svc.FieldComment("image")), old(img.value)) else old(svc.FieldComment("image"))
  {
    FoundImage(svc, img, at);
    var original := img.value;
    d := Evaluate(lib, m, original);
    if d.Replaced? {
      var comment := img.comment;
      if comment == "" {
        comment := Marker(original);
      } else if !Contains(comment, MARK) {
        comment := comment + "\n" + Marker(original);
      }
      SetImage(svc, img, at, d.text, comment);
    }
  }

  /** One turn of the loop of `RewriteImages`. */
  method RewriteService(lib: Library, m: Mirror, name: string, svc: Node) returns (action: Option<Action>)
    requires svc.Valid()
    modifies svc.repr
    ensures svc.Valid() && svc.kind == old(svc.kind) && svc.repr == old(svc.repr)
    ensures svc.View() == Rewritten(lib, m, old(svc.View()), old(svc.FieldComment("image"))).0
    ensures svc.FieldComment("image") == Rewritten(lib, m, old(svc.View()), old(svc.FieldComment("image"))).1
    ensures action == ActionFor(lib, m, name, old(svc.View()))
  {
    if svc.kind != MappingNode {
      return None;
    }
    var img, at := svc.Field("image");
    if img == null {
      return None;
    }
    svc.FieldView("image", img, at);
    FoundImage(svc, img, at);
    if img.kind != ScalarNode || img.value == "" {
      return None;
    }
    var original := img.value;
    var d := RewriteFound(lib, m, svc, img, at);
    return Some(ActionOf(name, original, d));
  }

  lemma CommentsDoNotMatter(lib: Library, m: Mirror, e: Entry, note: string)
    ensures RewrittenEntry(lib, m, e) == Entry(e.key, Rewritten(lib, m, e.val, note).0)
  {
  }

  /** One service is rewritten below its parent; `was` and `note` are what it was. */
  method RewriteChild(lib: Library, m: Mirror, parent: Node, name: string, svc: Node,
                      ghost at: nat, ghost was: Tree, ghost note: string)
    returns (action: Option<Action>)
    requires parent.Valid() && at < |parent.content| && svc == parent.content[at]
    requires svc.Valid() && svc.repr <= parent.repr && parent !in svc.repr
    requires was == svc.View() && note == svc.FieldComment("image")
    modifies svc.repr
    ensures parent.ValidBut(at) && svc.repr == old(svc.repr)
    ensures svc.Valid() && svc.View() == Rewritten(lib, m, was, note).0
    ensures svc.FieldComment("image") == Rewritten(lib, m, was, note).1
    ensures action == ActionFor(lib, m, name, was)
  {
    action := RewriteService(lib, m, name, svc);
    parent.OnlyChildMoved(at);
  }

  /** Settling a child leaves the child itself alone. */
  ghost method SettleChild(parent: Node, svc: Node, at: nat)
    requires parent.ValidBut(at) && svc == parent.content[at] && svc.repr <= parent.repr
    modifies parent`views, parent`repr
    ensures parent.Valid() && parent.repr == old(parent.repr) && parent.views == old(parent.views)[at := svc.View()]
    ensures svc.Valid() && svc.View() == old(svc.View())
    ensures svc.FieldComment("image") == old(svc.FieldComment("image"))
  {
    parent.Settle(at);
    assert parent !in svc.repr;
  }

  /** The same, settled. */
  method RewriteAndSettle(lib: Library, m: Mirror, parent: Node, name: string, svc: Node,
                          ghost at: nat, ghost was: Tree, ghost note: string)
    returns (action: Option<Action>)
    requires parent.Valid() && at < |parent.content| && svc == parent.content[at]
    requires svc.Valid() && svc.repr <= parent.repr && parent !in svc.repr
    requires was == svc.View() && note == svc.FieldComment("image")
    modifies svc.repr, parent`views, parent`repr
    ensures parent.Valid() && parent.repr == old(parent.repr)
    ensures parent.views == old(parent.views)[at := svc.View()]
    ensures svc.Valid() && svc.View() == Rewritten(lib, m, was, note).0
    ensures svc.FieldComment("image") == Rewritten(lib, m, was, note).1
    ensures action == ActionFor(lib, m, name, was)
  {
    action := RewriteChild(lib, m, parent, name, svc, at, was, note);
    SettleChild(parent, svc, at);
  }

  /** The same, with what it leaves alone. */
  method RewriteEntry(lib: Library, m: Mirror, services: Node, ghost at: nat, i: nat) returns (action: Option<Action>)
    requires services.Valid() && services.kind == MappingNode && i == 2 * at && at < |Pairs(services.views)|
    modifies services.repr
    ensures services.Valid() && services.kind == MappingNode && services.repr == old(services.repr)
    ensures services.content == old(services.content)
    ensures Pairs(services.views)
         == old(Pairs(services.views))[at := RewrittenEntry(lib, m, old(Pairs(services.views))[at])]
    ensures services.CommentBelow(at, "image") ==
      Rewritten(lib, m, old(Pairs(services.views))[at].val, old(services.CommentBelow(at, "image"))).1
    ensures forall k :: 0 <= k < |Pairs(services.views)| && k != at ==>
      services.CommentBelow(k, "image") == old(services.CommentBelow(k, "image"))
    ensures action == ActionAt(lib, m, old(Pairs(services.views))[at])
  {
    services.EntryAt(at);
    var name, svc := services.content[i].value, services.content[i + 1];
    ghost var e, note := Pairs(services.views)[at], services.CommentBelow(at, "image");
    CommentsDoNotMatter(lib, m, e, note);
    PairsUpdate(services.views, at, Rewritten(lib, m, e.val, note).0);
    action := RewriteAndSettle(lib, m, services, name, svc, 2 * at + 1, e.val, note);
    services.OtherComments(i + 1, "image");
  }

  lemma ActionsNext(lib: Library, m: Mirror, es: seq<Entry>, at: nat)
    requires at < |es|
    ensures Actions(lib, m, es[..at + 1]) == Actions(lib, m, es[..at])
      + match ActionAt(lib, m, es[at]) case Some(a) => [a] case None => []
  {
    assert es[..at + 1][..at] == es[..at];
  }

  /** The services of a mapping after the first `at` turns. */
  ghost function EntriesAfter(lib: Library, m: Mirror, was: seq<Entry>, at: nat): seq<Entry> {
    seq(|was|, k requires 0 <= k < |was| => if k < at then RewrittenEntry(lib, m, was[k]) else was[k])
  }

  /** The comment of one of their images by then. */
  ghost function NoteAfter(lib: Library, m: Mirror, e: Entry, note: string, done: bool): string {
    if done then Rewritten(lib, m, e.val, note).1 else note
  }

  lemma EntriesNext(lib: Library, m: Mirror, was: seq<Entry>, at: nat)
    requires at < |was|
    ensures EntriesAfter(lib, m, was, at)[at] == was[at]
    ensures EntriesAfter(lib, m, was, at + 1) == EntriesAfter(lib, m, was, at)[at := RewrittenEntry(lib, m, was[at])]
  {
  }

  /** The comments of the images, service by service. */
  ghost predicate Notes(services: Node, notes: seq<string>)
    requires services.Valid()
    reads services, services.repr
  {
    && |services.content| == 2 * |notes|
    && forall k :: 0 <= k < |notes| ==> services.CommentBelow(k, "image") == notes[k]
  }

  ghost function NotesAfter(lib: Library, m: Mirror, was: seq<Entry>, notes: seq<string>, at: nat): seq<string>
    requires |notes| == |was|
  {
    seq(|was|, k requires 0 <= k < |was| => NoteAfter(lib, m, was[k], notes[k], k < at))
  }

  lemma BeforeAndAfter(lib: Library, m: Mirror, was: seq<Entry>, notes: seq<string>)
    requires |notes| == |was|
    ensures EntriesAfter(lib, m, was, 0) == was && NotesAfter(lib, m, was, notes, 0) == notes
    ensures EntriesAfter(lib, m, was, |was|) == RewrittenEntries(lib, m, was)
    ensures NotesAfter(lib, m, was, notes, |was|) == RewrittenComments(lib, m, was, notes)
  {
  }

  lemma NotesNext(lib: Library, m: Mirror, was: seq<Entry>, notes: seq<string>, at: nat)
    requires |notes| == |was| && at < |was|
    ensures var before := NotesAfter(lib, m, was, notes, at);
      NotesAfter(lib, m, was, notes, at + 1) == before[at := Rewritten(lib, m, was[at].val, before[at]).1]
  {
  }

  /** One turn of the loop. */
  method RewriteNext(lib: Library, m: Mirror, services: Node, i: nat, ghost was: seq<Entry>, ghost notes: seq<string>,
                     ghost at: nat)
    returns (action: Option<Action>)
    requires services.Valid() && services.kind == MappingNode && i == 2 * at && at < |was| == |notes|
    requires Pairs(services.views) == EntriesAfter(lib, m, was, at)
    requires Notes(services, NotesAfter(lib, m, was, notes, at))
    modifies services.repr
    ensures services.Valid() && services.kind == MappingNode && services.repr == old(services.repr)
    ensures services.content == old(services.content)
    ensures Pairs(services.views) == EntriesAfter(lib, m, was, at + 1)
    ensures Notes(services, NotesAfter(lib, m, was, notes, at + 1))
    ensures action == ActionAt(lib, m, was[at])
  {
    EntriesNext(lib, m, was, at);
    ghost var before := NotesAfter(lib, m, was, notes, at);
    NotesNext(lib, m, was, notes, at);
    action := RewriteEntry(lib, m, services, at, i);
    assert services.CommentBelow(at, "image") == Rewritten(lib, m, was[at].val, before[at]).1;
  }

  /** The loop of `RewriteImages` over the services. */
  method RewriteServices(lib: Library, m: Mirror, services: Node, ghost notes: seq<string>)
    returns (actions: seq<Action>)
    requires services.Valid() && services.kind == MappingNode
    requires |notes| == |Pairs(services.views)| && Notes(services, notes)
    modifies services.repr
    ensures services.Valid() && services.kind == MappingNode && services.repr == old(services.repr)
    ensures Pairs(services.views) == RewrittenEntries(lib, m, old(Pairs(services.views)))
    ensures Notes(services, RewrittenComments(lib, m, old(Pairs(services.views)), notes))
    ensures actions == Actions(lib, m, old(Pairs(services.views)))
  {
    ghost var was := Pairs(services.views);
    BeforeAndAfter(lib, m, was, notes);
    actions := RewriteLoop(lib, m, services, was, notes);
  }

  method RewriteLoop(lib: Library, m: Mirror, services: Node, ghost was: seq<Entry>, ghost notes: seq<string>)
    returns (actions: seq<Action>)
    requires services.Valid() && services.kind == MappingNode && |notes| == |was|
    requires Pairs(services.views) == EntriesAfter(lib, m, was, 0)
    requires Notes(services, NotesAfter(lib, m, was, notes, 0))
    modifies services.repr
    ensures services.Valid() && services.kind == MappingNode && services.repr == old(services.repr)
    ensures Pairs(services.views) == EntriesAfter(lib, m, was, |was|)
    ensures Notes(services, NotesAfter(lib, m, was, notes, |was|))
    ensures actions == Actions(lib, m, was)
  {
    actions := [];
    ghost var at := 0;
    assert |services.content| == 2 * |was|;
    var i := 0;
    while i + 1 < |services.content|
      invariant i == 2 * at && at <= |was|
      invariant services.Valid() && services.kind == MappingNode && services.repr == old(services.repr)
      invariant services.content == old(services.content)
      invariant Pairs(services.views) == EntriesAfter(lib, m, was, at)
      invariant Notes(services, NotesAfter(lib, m, was, notes, at))
      invariant actions == Actions(lib, m, was[..at])
    {
      ActionsNext(lib, m, was, at);
      var action := RewriteNext(lib, m, services, i, was, notes, at);
      if action.Some? {
        actions := actions + [action.value];
      }
      i := i + 2;
      at := at + 1;
    }
    assert was[..at] == was;
  }

  /** The comments in the services of a document, as a sequence. */
  ghost method ReadNotes(services: Node) returns (notes: seq<string>)
    requires services.Valid() && services.kind == MappingNode
    ensures Notes(services, notes)
  {
    notes := [];
    while 2 * |notes| < |services.content|
      invariant 2 * |notes| <= |services.content|
      invariant forall k :: 0 <= k < |notes| ==> services.CommentBelow(k, "image") == notes[k]
      decreases |services.content| - |notes|
    {
      notes := notes + [services.CommentBelow(|notes|, "image")];
    }
  }

  /** The same, without the comments. */
  method RewriteTexts(lib: Library, m: Mirror, services: Node, ghost es: seq<Entry>) returns (actions: seq<Action>)
    requires services.Valid() && services.kind == MappingNode && es == Pairs(services.views)
    modifies services.repr
    ensures services.Valid() && services.repr == old(services.repr)
    ensures services.View() == Mapping(RewrittenEntries(lib, m, es)) && actions == Actions(lib, m, es)
  {
    ghost var notes := ReadNotes(services);
    actions := RewriteServices(lib, m, services, notes);
  }

  /** The services of a document are rewritten and settled; `es` is what they were. */
  method RewriteBelow(lib: Library, m: Mirror, doc: Node, services: Node, ghost at: nat, ghost es: seq<Entry>)
    returns (actions: seq<Action>)
    requires doc.Valid() && doc.Holds("services", services, at)
    requires services.Valid() && services.kind == MappingNode && es == Pairs(services.views)
    requires services.repr <= doc.repr && doc !in services.repr
    modifies services.repr, doc`views, doc`repr
    ensures doc.Valid() && doc.repr == old(doc.repr)
    ensures doc.View() == Put(old(doc.View()), "services", Mapping(RewrittenEntries(lib, m, es)))
    ensures actions == Actions(lib, m, es)
  {
    actions := RewriteTexts(lib, m, services, es);
    doc.OnlyChildMoved(2 * at + 1);
    doc.SettleField("services", services, at);
  }

  method RewriteDocument(lib: Library, m: Mirror, doc: Node) returns (actions: Option<seq<Action>>)
    requires doc.Valid()
    modifies doc.repr
    ensures doc.Valid() && doc.repr == old(doc.repr)
    ensures doc.View() == RewrittenDocument(lib, m, old(doc.View()))
    ensures actions == DocumentActions(lib, m, old(doc.View()))
  {
    var services, at := doc.Field("services");
    if services == null || services.kind != MappingNode {
      return None;
    }
    doc.FieldView("services", services, at);
    ghost var es := Pairs(services.views);
    assert Get(doc.View(), "services") == Some(Mapping(es));
    var list := RewriteBelow(lib, m, doc, services, at, es);
    return Some(list);
  }

  /** `RewriteImages`, between parsing and serializing: the actions, and whether the text is
      written anew. */
  method RewriteImages(lib: Library, root: Node, input: Input) returns (actions: Option<seq<Action>>, rewritten: bool)
    requires root.Valid()
    modifies root.repr
    ensures root.Valid()
    ensures !WillRewrite(input) ==> actions == None && forall n :: n in old(root.repr) ==> unchanged(n)
    ensures WillRewrite(input) ==> root.View() == match old(root.View())
      case Document(ts) =>
        if ts == [] then Document(ts) else Document(ts[0 := RewrittenDocument(lib, input.mirror.value, ts[0])])
      case doc => RewrittenDocument(lib, input.mirror.value, doc)
    ensures WillRewrite(input) ==> actions == match old(root.View())
      case Document(ts) => if ts == [] then None else DocumentActions(lib, input.mirror.value, ts[0])
      case doc => DocumentActions(lib, input.mirror.value, doc)
    ensures rewritten <==> actions.Some? && HasRewrite(actions.value)
  {
    actions, rewritten := None, false;
    var (run, requireHostOptIn) := ShouldRun(input);
    if !run {
      return;
    }
    if requireHostOptIn && input.hostOptIn != Some(true) {
      return;
    }
    var m := input.mirror.value;
    if root.kind == DocumentNode {
      if |root.content| == 0 {
        return;
      }
      actions := RewriteDocument(lib, m, root.content[0]);
      root.OnlyChildMoved(0);
      root.Settle(0);
    } else {
      actions := RewriteDocument(lib, m, root);
    }
    rewritten := actions.Some? && HasRewrite(actions.value);
  }
}
