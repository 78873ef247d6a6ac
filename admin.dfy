/** The admin panel's catalog management: the role guard in front of the page,
    replace-by-id, delete-by-id, the guarded append from the add form with its
    comma-separated tag parsing, and the order-status labels. */
module Admin {
  import opened Lists
  import opened Text
  import opened Catalog
  import Session

  // ---------------------------------------------------------------------------
  // Tag parsing

  /** The `filter` callback of the tag parser: `t.length > 0`. */
  const NonEmpty: string -> bool := (t: string) => |t| > 0

  /** A tag as the parser produces it: non-empty, no whitespace at either end, no comma. */
  predicate CleanTag(t: string)
  {
    t != [] && !IsWhitespace(t[0]) && !IsWhitespace(t[|t| - 1]) && ',' !in t
  }

  /** Trimming pieces that hold no comma leaves each one either empty or clean. */
  lemma TrimmedPiecesClean(pieces: seq<string>)
    requires forall i :: 0 <= i < |pieces| ==> ',' !in pieces[i]
    ensures forall i :: 0 <= i < |pieces| ==> Map(pieces, Trim)[i] == [] || CleanTag(Map(pieces, Trim)[i])
  {
    var trimmed := Map(pieces, Trim);
    forall i | 0 <= i < |trimmed| ensures trimmed[i] == [] || CleanTag(trimmed[i]) {
      TrimSpec(pieces[i]);
      var a, b :| 0 <= a <= b <= |pieces[i]| && Trim(pieces[i]) == pieces[i][a..b]
                  && AllWhitespace(pieces[i][..a]) && AllWhitespace(pieces[i][b..]);
      assert forall c :: c in pieces[i][a..b] ==> c in pieces[i];
    }
  }

  /** `text.split(',').map(t => t.trim()).filter(t => t.length > 0)`: the tags are
      the non-empty trimmed pieces, in order and with their multiplicity, and every
      one of them is clean. */
  function ParseTags(text: string): (r: seq<string>)
    ensures IsSubsequence(r, Map(Split(text, ','), Trim))
    ensures forall t :: multiset(r)[t] == if t != "" then multiset(Map(Split(text, ','), Trim))[t] else 0
    ensures forall i :: 0 <= i < |r| ==> CleanTag(r[i])
  {
    var trimmed := Map(Split(text, ','), Trim);
    TrimmedPiecesClean(Split(text, ','));
    FilterIsSubsequence(trimmed, NonEmpty);
    FilterCountsAll(trimmed, NonEmpty);
    Filter(trimmed, NonEmpty)
  }

  /** A clean tag preceded by one space (as `join(', ')` writes it) trims back to itself. */
  lemma TrimAfterSpace(t: string)
    requires CleanTag(t)
    ensures Trim(" " + t) == t && Trim(t) == t
  {
    var s := " " + t;
    assert s[1..] == t;
    assert LeadingWhitespace(t) == 0;
    assert LeadingWhitespace(s) == 1;
    assert TrailingWhitespace(t) == 0;
    assert t[..|t|] == t;
  }

  /** A tag as `join(', ')` writes it after a comma. */
  function PadTag(t: string): string
  {
    " " + t
  }

  /** The comma-separated pieces of `tags.join(', ')`: every tag after the first carries a space. */
  function Padded(tags: seq<string>): seq<string>
  {
    if tags == [] then [] else [tags[0]] + Map(tags[1..], PadTag)
  }

  /** `join(', ')` of a list is its padded pieces joined by a bare comma. */
  lemma {:induction false} JoinWithSpace(tags: seq<string>)
    ensures Join(tags, ", ") == Join(Padded(tags), ",")
    ensures |tags| >= 1 ==> Join(Map(tags, PadTag), ",") == " " + Join(tags, ", ")
  {
    if |tags| >= 2 {
      JoinWithSpace(tags[1..]);
      var m := Map(tags, PadTag);
      assert m[1..] == Map(tags[1..], PadTag);
      assert Padded(tags)[1..] == m[1..];
    } else if |tags| == 1 {
      assert Map(tags, PadTag) == [" " + tags[0]];
    }
  }

  /** Trimming the padded pieces of clean tags gives the tags back. */
  lemma TrimPadded(tags: seq<string>)
    requires forall i :: 0 <= i < |tags| ==> CleanTag(tags[i])
    ensures forall i :: 0 <= i < |Padded(tags)| ==> ',' !in Padded(tags)[i]
    ensures Map(Padded(tags), Trim) == tags
  {
    var padded := Padded(tags);
    forall i | 0 <= i < |tags| ensures padded[i] == if i == 0 then tags[0] else PadTag(tags[i]) {
    }
    var trimmed := Map(padded, Trim);
    forall i | 0 <= i < |tags| ensures trimmed[i] == tags[i] {
      TrimAfterSpace(tags[i]);
    }
  }

  /** The tags input shows a list as `tags.join(', ')`; parsing that text gives the
      list back whenever every tag is clean. */
  lemma ParseTagsOfJoined(tags: seq<string>)
    requires forall i :: 0 <= i < |tags| ==> CleanTag(tags[i])
    ensures ParseTags(Join(tags, ", ")) == tags
  {
    if tags == [] {
      assert Split("", ',') == [""];
      assert Map([""], Trim) == [""];
    } else {
      JoinWithSpace(tags);
      TrimPadded(tags);
      SplitJoin(Padded(tags), ',');
      assert [','] == ",";
      FilterKeepsAll(tags, NonEmpty);
    }
  }

  // ---------------------------------------------------------------------------
  // The add form

  /** The form's tags: the list it starts (and is reset) with, or the text typed into the input. */
  datatype TagsField = TagList(list: seq<string>) | TagText(text: string)

  /** The add-model form state (`newModel`). */
  datatype Draft = Draft(name: string, price: real, image: string, tags: TagsField, category: string, id: int)

  /** The form's defaults, restored after every successful add. */
  const EmptyDraft: Draft := Draft("", 0.0, "", TagList([]), "Abstract", 0)

  /** The guard of `addNewModel`: name, image and category non-empty, price non-zero. */
  predicate DraftComplete(d: Draft)
  {
    d.name != "" && d.price != 0.0 && d.image != "" && d.category != ""
  }

  /** The tags of the new entry: parsed from typed text, else the list as it is. */
  function DraftTags(f: TagsField): seq<string>
  {
    match f
    case TagText(text) => ParseTags(text)
    case TagList(list) => list
  }

  /** The entry `addNewModel` appends: the form's fields, id `now`, the resolved tags. */
  function FromDraft(d: Draft, now: int): (m: Model3D)
    ensures m.id == now && m.name == d.name && m.price == d.price && m.image == d.image && m.category == d.category
    ensures d.tags.TagText? ==> m.tags == ParseTags(d.tags.text)
    ensures d.tags.TagText? ==> forall i :: 0 <= i < |m.tags| ==> CleanTag(m.tags[i])
    ensures d.tags.TagList? ==> m.tags == d.tags.list
  {
    Model3D(now, d.name, d.price, d.image, DraftTags(d.tags), d.category)
  }

  // ---------------------------------------------------------------------------
  // Status labels

  /** The string values of the order status union. */
  function StatusName(s: Session.Status): string
  {
    match s
    case Pending => "pending"
    case Processing => "processing"
    case Shipped => "shipped"
    case Delivered => "delivered"
    case Cancelled => "cancelled"
  }

  predicate IsStatusName(status: string)
  {
    status == "pending" || status == "processing" || status == "shipped" || status == "delivered" || status == "cancelled"
  }

  /** `getStatusText`: the five statuses get their Russian labels; anything else is shown as it is. */
  function StatusText(status: string): (r: string)
    ensures !IsStatusName(status) ==> r == status
    ensures IsStatusName(status) ==> !IsStatusName(r)
  {
    match status
    case "pending" => "Ожидает"
    case "processing" => "Обработка"
    case "shipped" => "Отправлен"
    case "delivered" => "Доставлен"
    case "cancelled" => "Отменен"
    case _ => status
  }

  /** Distinct statuses get distinct labels, so the order table never conflates two. */
  lemma StatusTextDistinguishes(a: Session.Status, b: Session.Status)
    ensures StatusText(StatusName(a)) == StatusText(StatusName(b)) ==> a == b
  {
  }

  // ---------------------------------------------------------------------------
  // The panel

  /** The page's own state, next to the session store it reads `user` from. */
  class AdminPanel {
    const store: Session.SessionStore
    var models: seq<Model3D>
    var editing: Option<Model3D>
    var draft: Draft

    /** The guard the page re-checks on every render: the store's current user is an
        administrator. While it fails the page only redirects to the login page, so
        none of the handlers below can be reached. */
    ghost predicate Valid()
      reads this, store
    {
      store.Valid() && store.current.Some? && store.current.value.role == Session.AdminRole
    }

    constructor (store: Session.SessionStore)
      requires store.Valid() && store.current.Some? && store.current.value.role == Session.AdminRole
      ensures Valid() && this.store == store
      ensures models == SeedModels && editing == None && draft == EmptyDraft
    {
      this.store := store;
      models := SeedModels;
      editing := None;
      draft := EmptyDraft;
    }

    /** `updateModel`: every entry with the updated entry's id is replaced; the edit dialog closes. */
    method UpdateModel(updated: Model3D)
      requires Valid()
      modifies this
      ensures Valid()
      ensures models == ReplaceById(old(models), updated)
      ensures editing == None && draft == old(draft)
    {
      models := Map(models, ReplaceIfSameId(updated));
      editing := None;
    }

    /** `deleteModel`: every entry with the id goes, the rest keep their order. */
    method DeleteModel(id: int)
      requires Valid()
      modifies this
      ensures Valid()
      ensures models == RemoveById(old(models), id)
      ensures editing == old(editing) && draft == old(draft)
    {
      models := Filter(models, IdIsNot(id));
    }

    /** `addNewModel`: an incomplete form changes nothing; a complete one appends one
        entry with id `now` and resets the form. */
    method AddNewModel(now: int)
      requires Valid()
      modifies this
      ensures Valid()
      ensures DraftComplete(old(draft)) ==> models == old(models) + [FromDraft(old(draft), now)] && draft == EmptyDraft
      ensures !DraftComplete(old(draft)) ==> models == old(models) && draft == old(draft)
      ensures editing == old(editing)
    {
      if DraftComplete(draft) {
        var model := FromDraft(draft, now);
        models := models + [model];
        draft := EmptyDraft;
      }
    }

    /** The page's logout button: the store forgets the user, after which the guard
        fails and no handler of the panel is reachable any more. */
    method Logout()
      requires Valid()
      modifies store
      ensures !Valid()
      ensures store.Valid() && store.current == None
      ensures store.users == old(store.users) && store.orders == old(store.orders)
    {
      store.Logout();
    }
  }

  /** The page's guard: without a current administrator it redirects to the login
      page (no panel); otherwise it renders a fresh panel over the store. */
  method OpenAdmin(store: Session.SessionStore) returns (panel: AdminPanel?)
    requires store.Valid()
    ensures panel != null <==> store.current.Some? && store.current.value.role == Session.AdminRole
    ensures panel != null ==> fresh(panel) && panel.Valid() && panel.store == store
                              && panel.models == SeedModels && panel.editing == None && panel.draft == EmptyDraft
  {
    if store.current.None? || store.current.value.role != Session.AdminRole {
      return null;
    }
    panel := new AdminPanel(store);
  }

  /** The catalog the admin page starts with. */
  const SeedModels: seq<Model3D> := [
    Model3D(1, "Chrome Geometry", 12.99, "/img/81e5bc8d-ec10-404f-8104-00f0c12d0d27.jpg",
            ["abstract", "chrome", "modern"], "Abstract"),
    Model3D(2, "Future Robot", 24.99, "/img/cd9796df-cd02-4594-8bf6-88951bd41b72.jpg",
            ["robot", "futuristic", "character"], "Characters"),
    Model3D(3, "Crystal Sculpture", 18.50, "/img/98ad624f-ae7c-40d7-b4ab-fea2b133e361.jpg",
            ["crystal", "glass", "elegant"], "Decorative")
  ]
}
