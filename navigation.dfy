/** The section navigator: the URL hash selects which page section is visible and
    which navigation links are highlighted.

    The document is abstracted to the ids of the `.section` elements (in document
    order) with one `active` flag each, and the `href`s of the `.nav-link`
    elements (in document order) with one `active` flag each. */
module Navigation {
  import opened Wrappers

  const DefaultSection := "leaderboard"

  /** `s.substring(1)`: everything after the first character (nothing for the empty string). */
  function DropFirst(s: string): (r: string)
    ensures s != [] ==> [s[0]] + r == s
    ensures s == [] ==> r == []
  {
    if s == [] then [] else s[1..]
  }

  /** The section a link points at: its `href` without the leading `#`. */
  function LinkTarget(href: string): (target: string)
    ensures href != [] ==> [href[0]] + target == href
    ensures href == [] ==> target == []
  {
    DropFirst(href)
  }

  /** The section a location hash selects: the hash without its `#`, or the
      leaderboard when nothing is left. */
  function SectionFromHash(hash: string): (section: string)
    ensures section != ""
    ensures DropFirst(hash) == "" ==> section == DefaultSection
    ensures DropFirst(hash) != "" ==> section == DropFirst(hash)
  {
    var h := DropFirst(hash);
    if h == "" then DefaultSection else h
  }

  /** What `window.location.hash` reads after `window.location.hash = value`: the
      fragment is `value` with one leading `#` removed, and the hash is empty for an
      empty fragment and `#` followed by the fragment otherwise. */
  function AssignedHash(value: string): (hash: string)
    ensures hash == "" || hash[0] == '#'
    ensures value == "" || value == "#" ==> hash == ""
    ensures value != "" && value[0] != '#' ==> hash == "#" + value
    ensures |value| > 1 && value[0] == '#' ==> hash == value
  {
    var fragment := if value != [] && value[0] == '#' then value[1..] else value;
    if fragment == "" then "" else "#" + fragment
  }

  /** Setting the hash to `id` and reading the section back gives `id` exactly when
      `id` is non-empty and does not itself start with `#`. */
  lemma HashRoundTrip(id: string)
    ensures SectionFromHash(AssignedHash(id)) == id <==> id != "" && id[0] != '#'
  {
    if id != "" && id[0] != '#' {
      assert DropFirst("#" + id) == id;
    } else if id != "" && |id| > 1 {
      assert DropFirst(AssignedHash(id)) == id[1..];
      assert |id[1..]| < |id|;
    }
  }

  /** The first index holding `id`: `document.getElementById` in document order,
      which matches no element for the empty id. */
  function FindSection(ids: seq<string>, id: string): (r: Option<nat>)
    ensures r.Some? ==> r.value < |ids| && ids[r.value] == id
    ensures r.Some? ==> forall j | 0 <= j < r.value :: ids[j] != id
    ensures r.None? <==> id == "" || id !in ids
  {
    if id == "" || ids == [] then None
    else if ids[0] == id then Some(0)
    else match FindSection(ids[1..], id)
      case None => None
      case Some(k) => Some(k + 1)
  }

  class App {
    const sectionIds: seq<string>
    const sectionActive: array<bool>
    const linkHrefs: seq<string>
    const linkActive: array<bool>
    var currentSection: string
    var hash: string

    ghost predicate Valid()
      reads this
    {
      sectionActive.Length == |sectionIds| && linkActive.Length == |linkHrefs| && sectionActive != linkActive
    }

    /** The link flags highlight exactly the links pointing at `id`. */
    ghost predicate LinksFor(id: string)
      reads this, linkActive
      requires Valid()
    {
      forall i | 0 <= i < linkActive.Length :: linkActive[i] == (LinkTarget(linkHrefs[i]) == id)
    }

    /** The section flags and `currentSection` after showing `id`, `before` being the
        section current before: if a section with that id exists, the first one is the
        only active section and becomes current; otherwise none is active and the
        current section stays `before`. */
    ghost predicate SectionsFor(id: string, before: string)
      reads this, sectionActive
      requires Valid()
    {
      match FindSection(sectionIds, id)
      case Some(k) =>
        currentSection == id && forall i | 0 <= i < sectionActive.Length :: sectionActive[i] == (i == k)
      case None =>
        currentSection == before && forall i | 0 <= i < sectionActive.Length :: !sectionActive[i]
    }

    constructor (ids: seq<string>, hrefs: seq<string>, initialHash: string)
      ensures Valid() && fresh(sectionActive) && fresh(linkActive)
      ensures sectionIds == ids && linkHrefs == hrefs && hash == initialHash
      ensures LinksFor(SectionFromHash(initialHash))
      ensures SectionsFor(SectionFromHash(initialHash), DefaultSection)
    {
      sectionIds := ids;
      linkHrefs := hrefs;
      sectionActive := new bool[|ids|];
      linkActive := new bool[|hrefs|];
      currentSection := DefaultSection;
      hash := initialHash;
      new;
      HandleHashChange();
    }

    /** Highlights exactly the links whose target is `id`. */
    method UpdateActiveStates(id: string)
      requires Valid()
      modifies linkActive
      ensures Valid()
      ensures LinksFor(id)
    {
      for i := 0 to linkActive.Length
        invariant forall j | 0 <= j < i :: linkActive[j] == (LinkTarget(linkHrefs[j]) == id)
      {
        var target := LinkTarget(linkHrefs[i]);
        if target == id {
          linkActive[i] := true;
        } else {
          linkActive[i] := false;
        }
      }
    }

    /** Deactivates every section, then activates the first section with id `id`, if
        there is one, and makes it current. An unknown id leaves every section
        inactive and `currentSection` unchanged. */
    method ShowSection(id: string)
      requires Valid()
      modifies sectionActive, this`currentSection
      ensures Valid()
      ensures SectionsFor(id, old(currentSection))
      ensures forall i | 0 <= i < sectionActive.Length :: sectionActive[i] ==> sectionIds[i] == id
    {
      for i := 0 to sectionActive.Length
        invariant forall j | 0 <= j < i :: !sectionActive[j]
        invariant currentSection == old(currentSection)
      {
        sectionActive[i] := false;
      }
      var target := FindSection(sectionIds, id);
      if target.Some? {
        sectionActive[target.value] := true;
        currentSection := id;
      }
    }

    /** Shows the section the current hash selects. */
    method HandleHashChange()
      requires Valid()
      modifies linkActive, sectionActive, this`currentSection
      ensures Valid()
      ensures LinksFor(SectionFromHash(hash))
      ensures SectionsFor(SectionFromHash(hash), old(currentSection))
    {
      var section := SectionFromHash(hash);
      UpdateActiveStates(section);
      ShowSection(section);
    }

    /** Sets the hash to `id` and shows `id` at once. */
    method NavigateToSection(id: string)
      requires Valid()
      modifies linkActive, sectionActive, this`currentSection, this`hash
      ensures Valid()
      ensures hash == AssignedHash(id)
      ensures LinksFor(id)
      ensures SectionsFor(id, old(currentSection))
      ensures id != "" && id[0] != '#' ==>
                LinksFor(SectionFromHash(hash)) && SectionsFor(SectionFromHash(hash), old(currentSection))
    {
      hash := AssignedHash(id);
      UpdateActiveStates(id);
      ShowSection(id);
      HashRoundTrip(id);
    }

    /** A click on link `i` navigates to the link's target; the clicked link itself is
        then highlighted. */
    method ClickLink(i: nat)
      requires Valid() && i < |linkHrefs|
      modifies linkActive, sectionActive, this`currentSection, this`hash
      ensures Valid()
      ensures hash == AssignedHash(LinkTarget(linkHrefs[i]))
      ensures LinksFor(LinkTarget(linkHrefs[i])) && linkActive[i]
      ensures SectionsFor(LinkTarget(linkHrefs[i]), old(currentSection))
    {
      var target := LinkTarget(linkHrefs[i]);
      NavigateToSection(target);
    }
  }
}
