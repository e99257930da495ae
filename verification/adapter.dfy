/**
  The two pieces of logic in the script the shell injects into every
  page: the timer tick that looks for a stored session and reports the
  user identifier to the host, and the patch that docks a dynamically
  inserted sidebar on the left edge. Storage, parsing and DOM access are
  abstracted to the values they yield.
 */
module Adapter {
  import opened Options
  import opened Text
  import opened Shell

  // --- Session-token scan ---

  /** Storage keys of the form "sb-…-auth-token"; prefix and suffix may share the dash. */
  predicate IsSessionKey(key: string) {
    StartsWith(key, "sb-") && EndsWith(key, "-auth-token")
  }

  /**
    The stored value of a key, as `JSON.parse` leaves it: `Unparseable`
    when parsing throws; otherwise `userId` is `user.id` when the session
    and its user are present and the id is a string, `None` otherwise.
   */
  datatype Stored = Unparseable | Session(userId: Option<string>)

  /** One storage slot, in storage order. */
  datatype Entry = Entry(key: string, value: Stored)

  /** The outcome of one tick: parsing threw, no identifier was found, or one was. */
  datatype ScanOutcome = Aborted | NotFound | Found(id: string)

  /** A slot the scan passes over: not a session key, or a session without a usable identifier. */
  predicate Skippable(e: Entry) {
    !IsSessionKey(e.key) || (e.value.Session? && !Truthy(e.value.userId))
  }

  /**
    The scan of one tick: the first session key, in storage order, whose
    value either fails to parse (the tick is abandoned) or carries a
    non-empty identifier (the tick reports it).
   */
  function Scan(entries: seq<Entry>): (r: ScanOutcome)
    ensures r.Found? ==> r.id != ""
    ensures r.Found? ==> exists i | 0 <= i < |entries| :: entries[i].value == Session(Some(r.id))
    decreases |entries|
  {
    if entries == [] then NotFound
    else
      var e := entries[0];
      if !IsSessionKey(e.key) then Scan(entries[1..])
      else
        match e.value
        case Unparseable => Aborted
        case Session(userId) =>
          if Truthy(userId) then Found(userId.value)
          else
            var r := Scan(entries[1..]);
            assert r.Found? ==> exists i | 0 <= i < |entries[1..]| :: entries[1..][i].value == Session(Some(r.id));
            r
  }

  /** The scan loop as the script writes it: walk the slots, stop at the first hit, abandon on a parse failure. */
  method ScanStorage(entries: seq<Entry>) returns (r: ScanOutcome)
    ensures r == Scan(entries)
  {
    var i := 0;
    while i < |entries|
      invariant 0 <= i <= |entries|
      invariant Scan(entries[i..]) == Scan(entries)
    {
      var e := entries[i];
      assert entries[i..][1..] == entries[i + 1..];
      if IsSessionKey(e.key) {
        match e.value {
          case Unparseable =>
            return Aborted;
          case Session(userId) =>
            if Truthy(userId) {
              return Found(userId.value);
            }
        }
      }
      i := i + 1;
    }
    r := NotFound;
  }

  /** The message a tick posts: the identifier it found, sent as a USER_ID message; nothing otherwise. */
  function Tick(entries: seq<Entry>): (m: Option<Message>)
    ensures m.Some? <==> Scan(entries).Found?
    ensures m.Some? ==> IsUserId(m.value) && m.value.payload == Some(Scan(entries).id)
  {
    match Scan(entries)
    case Found(id) => Some(Parsed(Some("USER_ID"), Some(id)))
    case _ => None
  }

  /** Skipped slots before position `i` do not change the outcome. */
  lemma {:induction false} ScanSkipsPrefix(entries: seq<Entry>, i: nat)
    requires i <= |entries|
    requires forall j | 0 <= j < i :: Skippable(entries[j])
    ensures Scan(entries) == Scan(entries[i..])
    decreases i
  {
    if i > 0 {
      assert Skippable(entries[0]);
      ScanSkipsPrefix(entries[1..], i - 1);
      assert entries[1..][i - 1..] == entries[i..];
    }
  }

  /** The scan reports `id` exactly when the first slot it stops at is a session key holding `id`. */
  lemma {:induction false} ScanFoundIff(entries: seq<Entry>, id: string)
    ensures Scan(entries) == Found(id) <==>
      id != "" &&
      exists i | 0 <= i < |entries| ::
        IsSessionKey(entries[i].key) && entries[i].value == Session(Some(id)) &&
        forall j | 0 <= j < i :: Skippable(entries[j])
    decreases |entries|
  {
    if Scan(entries) == Found(id) {
      if Skippable(entries[0]) {
        ScanFoundIff(entries[1..], id);
        var i :| 0 <= i < |entries[1..]| &&
          IsSessionKey(entries[1..][i].key) && entries[1..][i].value == Session(Some(id)) &&
          forall j | 0 <= j < i :: Skippable(entries[1..][j]);
        assert forall j | 0 <= j < i + 1 :: Skippable(entries[j]) by {
          forall j | 0 <= j < i + 1 ensures Skippable(entries[j]) {
            if j > 0 {
              assert entries[j] == entries[1..][j - 1];
            }
          }
        }
        assert entries[i + 1] == entries[1..][i];
      }
    }
    if id != "" && exists i | 0 <= i < |entries| ::
        IsSessionKey(entries[i].key) && entries[i].value == Session(Some(id)) &&
        forall j | 0 <= j < i :: Skippable(entries[j]) {
      var i :| 0 <= i < |entries| &&
        IsSessionKey(entries[i].key) && entries[i].value == Session(Some(id)) &&
        forall j | 0 <= j < i :: Skippable(entries[j]);
      ScanSkipsPrefix(entries, i);
      assert entries[i..][0] == entries[i];
    }
  }

  /** A tick is abandoned exactly when the first slot the scan stops at is a session key whose value does not parse. */
  lemma {:induction false} ScanAbortedIff(entries: seq<Entry>)
    ensures Scan(entries) == Aborted <==>
      exists i | 0 <= i < |entries| ::
        IsSessionKey(entries[i].key) && entries[i].value == Unparseable &&
        forall j | 0 <= j < i :: Skippable(entries[j])
    decreases |entries|
  {
    if Scan(entries) == Aborted {
      if Skippable(entries[0]) {
        ScanAbortedIff(entries[1..]);
        var i :| 0 <= i < |entries[1..]| &&
          IsSessionKey(entries[1..][i].key) && entries[1..][i].value == Unparseable &&
          forall j | 0 <= j < i :: Skippable(entries[1..][j]);
        assert forall j | 0 <= j < i + 1 :: Skippable(entries[j]) by {
          forall j | 0 <= j < i + 1 ensures Skippable(entries[j]) {
            if j > 0 {
              assert entries[j] == entries[1..][j - 1];
            }
          }
        }
        assert entries[i + 1] == entries[1..][i];
      }
    }
    if exists i | 0 <= i < |entries| ::
        IsSessionKey(entries[i].key) && entries[i].value == Unparseable &&
        forall j | 0 <= j < i :: Skippable(entries[j]) {
      var i :| 0 <= i < |entries| &&
        IsSessionKey(entries[i].key) && entries[i].value == Unparseable &&
        forall j | 0 <= j < i :: Skippable(entries[j]);
      ScanSkipsPrefix(entries, i);
      assert entries[i..][0] == entries[i];
    }
  }

  /** A tick finds nothing exactly when every slot is skipped. */
  lemma {:induction false} ScanNotFoundIff(entries: seq<Entry>)
    ensures Scan(entries) == NotFound <==> forall j | 0 <= j < |entries| :: Skippable(entries[j])
    decreases |entries|
  {
    if entries != [] {
      ScanNotFoundIff(entries[1..]);
      if forall j | 0 <= j < |entries[1..]| :: Skippable(entries[1..][j]) {
        forall j | 0 <= j < |entries| ensures Skippable(entries[j]) || !Skippable(entries[0]) {
          if j > 0 {
            assert entries[j] == entries[1..][j - 1];
          }
        }
      }
      if forall j | 0 <= j < |entries| :: Skippable(entries[j]) {
        forall j | 0 <= j < |entries[1..]| ensures Skippable(entries[1..][j]) {
          assert entries[1..][j] == entries[j + 1];
        }
      }
    }
  }

  /** The shortest session key is "sb-auth-token", where prefix and suffix share the dash. */
  lemma SessionKeyShape(key: string)
    ensures IsSessionKey("sb-auth-token")
    ensures IsSessionKey(key) ==> |key| >= 13
    ensures IsSessionKey(key) && |key| == 13 <==> key == "sb-auth-token"
  {
    if IsSessionKey(key) {
      // the suffix cannot start inside "sb", where no dash is
      assert key[|key| - 11] == key[|key| - 11..][0] == '-';
      assert key[0] == key[..3][0] == 's' && key[1] == key[..3][1] == 'b';
    }
    if IsSessionKey(key) && |key| == 13 {
      assert key == key[..2] + key[2..];
      assert key[..2] == key[..3][..2];
      assert key[2..] == key[13 - 11..];
    }
  }

  /**
    A tick that finds an identifier makes the host record it and changes
    nothing else; a tick posts nothing exactly when its scan found nothing
    or was abandoned.
   */
  lemma TickUpdatesHost(s: State, entries: seq<Entry>)
    ensures Scan(entries).Found? ==>
      Step(s, PageMessage(Tick(entries).value)) == s.(profileId := Some(Scan(entries).id))
    ensures Tick(entries).None? <==> Scan(entries) == NotFound || Scan(entries) == Aborted
  {
  }

  /** The host ignores a repeated identical message, so ticks that keep reporting the same identifier are harmless. */
  lemma RepeatedMessageIdempotent(s: State, m: Message)
    ensures HandleMessage(HandleMessage(s, m), m) == HandleMessage(s, m)
  {
  }

  // --- Sidebar patch ---

  /**
    An added DOM node: node type, class list, inner markup, the inline
    style's `right`, `left` and `transform`, and the remaining attributes.
    `attributes` excludes `style`: writing an inline style property
    rewrites that attribute in the DOM, and here it is represented only by
    the three style fields.
   */
  datatype Node = Node(
    nodeType: int,
    classes: set<string>,
    innerHtml: string,
    right: string,
    left: string,
    transform: string,
    attributes: map<string, string>)

  const ElementNode: int := 1
  const HiddenLeft: string := "translateX(-100%)"
  const Marker: string := "data-hacked-sidebar"

  /** An element positioned fixed or absolute that looks like a menu: a high stacking class, or "menu" in its markup. */
  predicate IsSidebar(n: Node) {
    && n.nodeType == ElementNode
    && ("fixed" in n.classes || "absolute" in n.classes)
    && ("z-50" in n.classes || "z-40" in n.classes || Contains(n.innerHtml, "menu"))
  }

  /** A transform that hides the panel to the right: the slide class, or "100%" in the inline transform. */
  predicate SlidesRight(n: Node) {
    "translate-x-full" in n.classes || Contains(n.transform, "100%")
  }

  /** The patch the mutation watcher applies to each added node. */
  function PatchNode(n: Node): (r: Node)
    ensures r.nodeType == n.nodeType && r.classes == n.classes && r.innerHtml == n.innerHtml
    ensures !IsSidebar(n) ==> r == n
    ensures IsSidebar(n) ==> r.right == "auto" && r.left == "0px"
    ensures IsSidebar(n) ==> r.attributes == n.attributes[Marker := "true"]
    ensures IsSidebar(n) && SlidesRight(n) ==> r.transform == HiddenLeft
    ensures !(IsSidebar(n) && SlidesRight(n)) ==> r.transform == n.transform
  {
    if IsSidebar(n) then
      n.(right := "auto", left := "0px",
         transform := if SlidesRight(n) then HiddenLeft else n.transform,
         attributes := n.attributes[Marker := "true"])
    else n
  }

  /** Patching is idempotent: a patched node is still a sidebar and patching it again changes nothing. */
  lemma PatchIdempotent(n: Node)
    ensures IsSidebar(PatchNode(n)) <==> IsSidebar(n)
    ensures PatchNode(PatchNode(n)) == PatchNode(n)
  {
  }

  /**
    The flip is stable: a patched sidebar slides exactly when the original
    did, because the left-hidden transform itself contains "100%".
   */
  lemma PatchKeepsSliding(n: Node)
    ensures SlidesRight(PatchNode(n)) <==> SlidesRight(n)
  {
    if IsSidebar(n) && SlidesRight(n) {
      assert HiddenLeft[12..16] == "100%";
      assert OccursAt(HiddenLeft, "100%", 12);
    }
  }

  /** A node carries the marker after the patch exactly when it is a sidebar or already carried it. */
  lemma PatchMarksSidebars(n: Node)
    ensures (Marker in PatchNode(n).attributes && PatchNode(n).attributes[Marker] == "true") <==>
      IsSidebar(n) || (Marker in n.attributes && n.attributes[Marker] == "true")
  {
  }

  /** A sidebar with no sliding transform is docked left and keeps its transform. */
  lemma PatchWithoutTransform(n: Node)
    requires IsSidebar(n) && !SlidesRight(n)
    ensures PatchNode(n) == n.(right := "auto", left := "0px", attributes := n.attributes[Marker := "true"])
  {
  }
}
