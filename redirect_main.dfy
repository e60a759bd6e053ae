/**
 * RedirectMain: shows the text stored under "text" in the shared preferences file, asking a getter
 * activity for it first when none is stored, and reacting to the getter's result by request code.
 */
module RedirectMain {
  import opened Common

  /** Request code of the launch made when no text is stored yet. */
  const INIT_TEXT_REQUEST: int := 0
  /** Request code of the launch made by the "New text" button. */
  const NEW_TEXT_REQUEST: int := 1
  /** `Activity.RESULT_CANCELED`. */
  const RESULT_CANCELED: int := 0

  /** The preference key the getter writes and this activity reads. */
  const TEXT_KEY: string := "text"

  /** `getString("text", null)` on the preference entries. */
  function StoredText(entries: map<string, string>): (r: Option<string>)
    ensures r.Some? <==> TEXT_KEY in entries
    ensures r.Some? ==> r.value == entries[TEXT_KEY]
  {
    if TEXT_KEY in entries then Some(entries[TEXT_KEY]) else None
  }

  /** What `onActivityResult` does with a result. */
  datatype ResultAction = Finish | Reload | Ignore

  function ActionFor(requestCode: int, resultCode: int): (a: ResultAction)
    ensures a == Finish <==> requestCode == INIT_TEXT_REQUEST && resultCode == RESULT_CANCELED
    ensures a == Reload <==> (requestCode == INIT_TEXT_REQUEST || requestCode == NEW_TEXT_REQUEST)
                               && resultCode != RESULT_CANCELED
    ensures a == Ignore <==> (requestCode == NEW_TEXT_REQUEST && resultCode == RESULT_CANCELED)
                               || (requestCode != INIT_TEXT_REQUEST && requestCode != NEW_TEXT_REQUEST)
  {
    if requestCode == INIT_TEXT_REQUEST then
      if resultCode == RESULT_CANCELED then Finish else Reload
    else if requestCode == NEW_TEXT_REQUEST then
      if resultCode != RESULT_CANCELED then Reload else Ignore
    else Ignore
  }

  /** After "Clear and exit" removes the key, nothing is stored, whatever else the file holds. */
  lemma ClearedTextIsGone(entries: map<string, string>)
    ensures StoredText(entries - {TEXT_KEY}) == None
    ensures forall k :: k in entries && k != TEXT_KEY ==> k in entries - {TEXT_KEY}
  {
  }

  /** The "RedirectData" preferences file, shared with the getter activity. */
  class SharedPreferences {
    var entries: map<string, string>

    constructor (initial: map<string, string>)
      ensures entries == initial
    {
      entries := initial;
    }

    /** `edit().remove(key).commit()`. */
    method Remove(key: string)
      modifies this
      ensures entries == old(entries) - {key}
    {
      entries := entries - {key};
    }
  }

  class RedirectMainActivity {
    const preferences: SharedPreferences
    /** `mTextPref`. */
    var textPref: Option<string>
    /** The text shown by the activity's text view; `None` while it still shows the layout's text. */
    var shownText: Option<string>
    var finished: bool
    /** The request codes passed to `startActivityForResult`, in order. */
    var launched: seq<int>

    constructor (preferences: SharedPreferences)
      ensures this.preferences == preferences
      ensures textPref == None && shownText == None && !finished && launched == []
    {
      this.preferences := preferences;
      textPref := None;
      shownText := None;
      finished := false;
      launched := [];
    }

    /** `loadPrefs`: read "text"; only when it is there, show it and report true. */
    method LoadPrefs() returns (found: bool)
      modifies this
      ensures found <==> TEXT_KEY in preferences.entries
      ensures textPref == StoredText(preferences.entries)
      ensures shownText == if found then textPref else old(shownText)
      ensures finished == old(finished) && launched == old(launched)
    {
      textPref := StoredText(preferences.entries);
      if textPref.Some? {
        shownText := textPref;
        return true;
      }
      return false;
    }

    /** `onCreate`: load the preference, and ask for the text with INIT_TEXT_REQUEST if none is stored. */
    method OnCreate()
      modifies this
      ensures textPref == StoredText(preferences.entries)
      ensures TEXT_KEY in preferences.entries ==> shownText == textPref && launched == old(launched)
      ensures TEXT_KEY !in preferences.entries ==>
                shownText == old(shownText) && launched == old(launched) + [INIT_TEXT_REQUEST]
      ensures finished == old(finished)
    {
      var found := LoadPrefs();
      if !found {
        launched := launched + [INIT_TEXT_REQUEST];
      }
    }

    /** `onActivityResult`: finish, reload or do nothing, as `ActionFor` decides. */
    method OnActivityResult(requestCode: int, resultCode: int)
      modifies this
      ensures launched == old(launched)
      ensures ActionFor(requestCode, resultCode) == Finish ==>
                finished && textPref == old(textPref) && shownText == old(shownText)
      ensures ActionFor(requestCode, resultCode) == Reload ==>
                finished == old(finished) && textPref == StoredText(preferences.entries)
                && shownText == (if textPref.Some? then textPref else old(shownText))
      ensures ActionFor(requestCode, resultCode) == Ignore ==>
                finished == old(finished) && textPref == old(textPref) && shownText == old(shownText)
    {
      if requestCode == INIT_TEXT_REQUEST {
        if resultCode == RESULT_CANCELED {
          finished := true;
        } else {
          var _ := LoadPrefs();
        }
      } else if requestCode == NEW_TEXT_REQUEST {
        if resultCode != RESULT_CANCELED {
          var _ := LoadPrefs();
        }
      }
    }

    /** "Clear and exit": remove "text" from the shared file and finish. */
    method OnClearClicked()
      modifies this, preferences
      ensures preferences.entries == old(preferences.entries) - {TEXT_KEY}
      ensures StoredText(preferences.entries) == None
      ensures finished
      ensures textPref == old(textPref) && shownText == old(shownText) && launched == old(launched)
    {
      preferences.Remove(TEXT_KEY);
      finished := true;
    }

    /** "New text": ask the getter again, with NEW_TEXT_REQUEST. */
    method OnNewClicked()
      modifies this
      ensures launched == old(launched) + [NEW_TEXT_REQUEST]
      ensures textPref == old(textPref) && shownText == old(shownText) && finished == old(finished)
    {
      launched := launched + [NEW_TEXT_REQUEST];
    }
  }

  /** After "Clear and exit", loading the preferences finds nothing and launches the getter again. */
  method ClearThenRecreate(a: RedirectMainActivity) returns (b: RedirectMainActivity)
    modifies a, a.preferences
    ensures fresh(b) && b.preferences == a.preferences
    ensures b.textPref == None && b.launched == [INIT_TEXT_REQUEST]
  {
    a.OnClearClicked();
    b := new RedirectMainActivity(a.preferences);
    b.OnCreate();
  }
}
