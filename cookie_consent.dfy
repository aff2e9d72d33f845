/** The cookie banner (components/CookieConsent.tsx): it appears when no
    choice is stored, lets the visitor accept all, refuse all or set the
    optional categories, and stores the choice. Essential cookies are
    always on. */
module CookieConsent {
  import opened Common

  datatype Prefs = Prefs(essential: bool, analytics: bool, marketing: bool)

  datatype Key = Essential | Analytics | Marketing

  const Defaults := Prefs(true, false, false)
  const AllAccepted := Prefs(true, true, true)
  const AllRefused := Prefs(true, false, false)

  const StorageKey := "cookie-consent"
  const SavedToast := "Vos préférences de cookies ont été enregistrées."
  const EssentialOnlyToast := "Seuls les cookies essentiels sont activés."

  function Get(p: Prefs, key: Key): bool
  {
    match key
    case Essential => p.essential
    case Analytics => p.analytics
    case Marketing => p.marketing
  }

  /** `handleToggle`'s update: "essential" is left alone, any other key is
      flipped and the rest kept. */
  function Flip(p: Prefs, key: Key): (r: Prefs)
    ensures key == Essential ==> r == p
    ensures key != Essential ==> Get(r, key) == !Get(p, key)
    ensures forall k :: k != key ==> Get(r, k) == Get(p, k)
    ensures r.essential == p.essential
  {
    match key
    case Essential => p
    case Analytics => p.(analytics := !p.analytics)
    case Marketing => p.(marketing := !p.marketing)
  }

  /** Flipping the same key twice restores the preferences. */
  lemma FlipTwice(p: Prefs, key: Key)
    ensures Flip(Flip(p, key), key) == p
  {
  }

  function BoolText(b: bool): string
  {
    if b then "true" else "false"
  }

  /** `JSON.stringify(preferences)`, keys in declaration order. */
  function Stringify(p: Prefs): (r: string)
    ensures |r| >= 2 && r[0] == '{' && r[|r| - 1] == '}'
  {
    "{\"essential\":" + BoolText(p.essential) + ",\"analytics\":" + BoolText(p.analytics)
      + ",\"marketing\":" + BoolText(p.marketing) + "}"
  }

  /** The text to read the stored choice back: the preferences whose
      serialisation it is, if any. */
  function Parse(s: string): (r: Option<Prefs>)
    ensures r.Some? ==> Stringify(r.value) == s
  {
    var candidates := seq(8, i requires 0 <= i < 8 => Prefs(i / 4 == 1, (i / 2) % 2 == 1, i % 2 == 1));
    FirstMatch(candidates, s)
  }

  function FirstMatch(candidates: seq<Prefs>, s: string): (r: Option<Prefs>)
    ensures r.Some? ==> r.value in candidates && Stringify(r.value) == s
    ensures r.None? ==> forall p :: p in candidates ==> Stringify(p) != s
  {
    if candidates == [] then None
    else if Stringify(candidates[0]) == s then Some(candidates[0])
    else FirstMatch(candidates[1..], s)
  }

  /** Two preference sets with the same serialisation are the same: the
      stored text determines the choice. */
  lemma StringifyInjective(p: Prefs, q: Prefs)
    requires Stringify(p) == Stringify(q)
    ensures p == q
  {
    var sp, sq := Stringify(p), Stringify(q);
    assert sp[13] == BoolText(p.essential)[0] && sq[13] == BoolText(q.essential)[0];
    assert p.essential == q.essential;
    var k := 13 + |BoolText(p.essential)| + 13;
    assert sp[k] == BoolText(p.analytics)[0] && sq[k] == BoolText(q.analytics)[0];
    assert p.analytics == q.analytics;
    var m := k + |BoolText(p.analytics)| + 13;
    assert sp[m] == BoolText(p.marketing)[0] && sq[m] == BoolText(q.marketing)[0];
  }

  /** What is stored reads back as what was saved. */
  lemma ParseStringify(p: Prefs)
    ensures Parse(Stringify(p)) == Some(p)
  {
    var candidates := seq(8, i requires 0 <= i < 8 => Prefs(i / 4 == 1, (i / 2) % 2 == 1, i % 2 == 1));
    var i := (if p.essential then 4 else 0) + (if p.analytics then 2 else 0) + (if p.marketing then 1 else 0);
    assert candidates[i] == p;
    var r := FirstMatch(candidates, Stringify(p));
    assert r.Some?;
    StringifyInjective(r.value, p);
  }

  /** The banner's state and the `localStorage` entry it reads and writes. */
  class Banner {
    var visible: bool
    var showSettings: bool
    var prefs: Prefs
    /** `localStorage.getItem("cookie-consent")`. */
    var storage: Option<string>
    /** The toasts shown, oldest first. */
    var toasts: seq<string>

    /** Essential cookies stay on in the preferences being edited. */
    predicate Valid()
      reads this
    {
      prefs.essential
    }

    constructor (storage: Option<string>)
      ensures Valid()
      ensures !visible && !showSettings && prefs == Defaults
      ensures this.storage == storage && toasts == []
    {
      visible := false;
      showSettings := false;
      prefs := Defaults;
      this.storage := storage;
      toasts := [];
    }

    /** The mount effect, once its one-second timer has run: the banner
        shows when nothing (or an empty text) is stored. */
    method Mount()
      modifies this
      ensures visible == (old(visible) || storage.None? || storage == Some(""))
      ensures showSettings == old(showSettings) && prefs == old(prefs)
      ensures storage == old(storage) && toasts == old(toasts)
    {
      if storage.None? || storage == Some("") {
        visible := true;
      }
    }

    method OpenSettings()
      modifies this
      ensures showSettings
      ensures visible == old(visible) && prefs == old(prefs) && storage == old(storage) && toasts == old(toasts)
    {
      showSettings := true;
    }

    method CloseSettings()
      modifies this
      ensures !showSettings
      ensures visible == old(visible) && prefs == old(prefs) && storage == old(storage) && toasts == old(toasts)
    {
      showSettings := false;
    }

    /** `handleToggle(key)`. */
    method Toggle(key: Key)
      requires Valid()
      modifies this
      ensures Valid()
      ensures prefs == Flip(old(prefs), key)
      ensures visible == old(visible) && showSettings == old(showSettings)
      ensures storage == old(storage) && toasts == old(toasts)
    {
      if key != Essential {
        prefs := Flip(prefs, key);
      }
    }

    /** `savePreferences(p)`: store the JSON text, hide the banner, toast. */
    method Save(p: Prefs)
      modifies this
      ensures storage == Some(Stringify(p)) && !visible
      ensures toasts == old(toasts) + [SavedToast]
      ensures showSettings == old(showSettings) && prefs == old(prefs)
    {
      storage := Some(Stringify(p));
      visible := false;
      toasts := toasts + [SavedToast];
    }

    /** "Tout accepter". */
    method AcceptAll()
      modifies this
      ensures storage == Some(Stringify(AllAccepted)) && !visible
      ensures toasts == old(toasts) + [SavedToast]
      ensures showSettings == old(showSettings) && prefs == old(prefs)
    {
      Save(AllAccepted);
    }

    /** "Refuser": only the essential cookies, and a second toast. */
    method RefuseAll()
      modifies this
      ensures storage == Some(Stringify(AllRefused)) && !visible
      ensures toasts == old(toasts) + [SavedToast, EssentialOnlyToast]
      ensures showSettings == old(showSettings) && prefs == old(prefs)
    {
      Save(AllRefused);
      toasts := toasts + [EssentialOnlyToast];
    }

    /** "Enregistrer": the edited preferences, essential on. */
    method SaveCurrent()
      requires Valid()
      modifies this
      ensures Valid()
      ensures storage == Some(Stringify(prefs)) && !visible
      ensures Parse(storage.value) == Some(prefs) && Parse(storage.value).value.essential
      ensures toasts == old(toasts) + [SavedToast]
      ensures showSettings == old(showSettings) && prefs == old(prefs)
    {
      Save(prefs);
      ParseStringify(prefs);
    }
  }

  /** Whatever the banner stores (accept all, refuse all, or the edited
      preferences, all with essential on) reads back with essential cookies
      on, and is never empty, so the banner stays hidden on the next
      visit. */
  lemma SavedChoicesKeepEssential(p: Prefs)
    requires p.essential
    ensures Parse(Stringify(p)).Some? && Parse(Stringify(p)).value.essential
    ensures Stringify(p) != ""
  {
    ParseStringify(p);
  }
}
