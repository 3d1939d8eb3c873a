/** The site shell: which menu entry a path highlights, where a menu entry leads, and the admin flag. */
module MainLayout {
  import opened Wrappers
  import opened Browser

  const HomePath: string := "/"
  const AboutPath: string := "/about"
  const AdmissionsPath: string := "/admissions"
  const HistoryPath: string := "/history"
  const CareersPath: string := "/careers"
  const OpportunitiesPath: string := "/opportunities"
  const DashboardPath: string := "/admin/dashboard"
  const LoginPath: string := "/admin/login"

  /** Menu entries that a path can highlight. */
  predicate IsPageKey(key: string) {
    key == "home" || key == "about" || key == "admissions" || key == "history"
  }

  /** Every entry of the menu. */
  predicate IsMenuKey(key: string) {
    IsPageKey(key) || key == "careers" || key == "opportunities"
  }

  /** Paths that have a highlighted menu entry. */
  predicate IsPagePath(path: string) {
    path == HomePath || path == AboutPath || path == AdmissionsPath || path == HistoryPath
  }

  /** The menu entry highlighted on a path; the empty key when none is. */
  function SelectedKey(path: string): (key: string)
    ensures key == "" <==> !IsPagePath(path)
    ensures key != "" ==> IsPageKey(key)
    ensures path == HomePath ==> key == "home"
    ensures path == AboutPath ==> key == "about"
    ensures path == AdmissionsPath ==> key == "admissions"
    ensures path == HistoryPath ==> key == "history"
  {
    if path == HomePath then "home"
    else if path == AboutPath then "about"
    else if path == AdmissionsPath then "admissions"
    else if path == HistoryPath then "history"
    else ""
  }

  /** Where clicking a menu entry navigates; None for a key outside the menu. */
  function MenuTarget(key: string): (target: Option<string>)
    ensures target.Some? <==> IsMenuKey(key)
    ensures key == "home" ==> target == Some(HomePath)
    ensures key == "about" ==> target == Some(AboutPath)
    ensures key == "admissions" ==> target == Some(AdmissionsPath)
    ensures key == "history" ==> target == Some(HistoryPath)
    ensures key == "careers" ==> target == Some(CareersPath)
    ensures key == "opportunities" ==> target == Some(OpportunitiesPath)
  {
    if key == "home" then Some(HomePath)
    else if key == "about" then Some(AboutPath)
    else if key == "admissions" then Some(AdmissionsPath)
    else if key == "history" then Some(HistoryPath)
    else if key == "careers" then Some(CareersPath)
    else if key == "opportunities" then Some(OpportunitiesPath)
    else None
  }

  /** Clicking a page entry leads to a path that highlights that same entry. */
  lemma MenuRoundTrip(key: string)
    requires IsPageKey(key)
    ensures MenuTarget(key).Some? && SelectedKey(MenuTarget(key).value) == key
  {
  }

  /** On a path that highlights an entry, clicking that entry leads back to the path. */
  lemma PathRoundTrip(path: string)
    requires IsPagePath(path)
    ensures MenuTarget(SelectedKey(path)) == Some(path)
  {
  }

  /** The careers and opportunities entries navigate, but their pages highlight no entry. */
  lemma UnhighlightedEntries(key: string)
    requires IsMenuKey(key) && !IsPageKey(key)
    ensures MenuTarget(key).Some? && SelectedKey(MenuTarget(key).value) == ""
  {
  }

  /** The admin flag: the stored isAdmin value is exactly the text "true". */
  predicate IsAdmin(entries: map<string, Stored>) {
    AdminKey in entries && entries[AdminKey] == Text("true")
  }

  /** Storing a value under isAdmin sets the flag exactly when that value is the text "true"; without the entry it is unset. */
  lemma AdminFlagExact(entries: map<string, Stored>, v: Stored)
    ensures IsAdmin(entries[AdminKey := v]) <==> v == Text("true")
    ensures AdminKey !in entries ==> !IsAdmin(entries)
  {
  }

  /** Where the admin button leads: the dashboard for an admin, the login page otherwise. */
  function AdminTarget(entries: map<string, Stored>): (target: string)
    ensures target == DashboardPath <==> IsAdmin(entries)
    ensures target == LoginPath <==> !IsAdmin(entries)
  {
    if IsAdmin(entries) then DashboardPath else LoginPath
  }

  /** Storage after logging out: the isAdmin entry is gone and every other entry is untouched. */
  function LoggedOut(entries: map<string, Stored>): (r: map<string, Stored>)
    ensures AdminKey !in r && !IsAdmin(r)
    ensures forall k :: k != AdminKey ==> (k in r <==> k in entries)
    ensures forall k :: k in r ==> r[k] == entries[k]
  {
    entries - {AdminKey}
  }

  /** After logging out, the admin button leads to the login page. */
  lemma LogoutRevokesDashboard(entries: map<string, Stored>)
    ensures AdminTarget(LoggedOut(entries)) == LoginPath
  {
  }

  /** The logout handler: drops the isAdmin entry and navigates home. */
  method HandleLogout(storage: Storage) returns (target: string)
    modifies storage
    ensures storage.entries == LoggedOut(old(storage.entries))
    ensures target == HomePath
  {
    storage.entries := LoggedOut(storage.entries);
    target := HomePath;
  }
}
