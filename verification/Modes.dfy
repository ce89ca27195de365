/** The persisted preferences: how they are written, read and listed (traffic_mode.rs, enforcement_mode.rs). */
module Modes {
  import opened Wrappers
  import opened Collections
  import opened Text
  import opened Nft

  lemma PrefLine(p: Preference, line: string)
    requires line == PrefText(p) + "\n"
    ensures LoadPref(Some(line)) == p
  {
    hide LoadPref, PrefText;
    PrefRoundTrip(p);
  }

  /** The words that the preference files hold, and what a missing file means. */
  lemma PreferenceWords()
    ensures LoadPref(Some("open\n")) == Open && LoadPref(Some("out\n")) == Out
    ensures LoadPref(Some("in\n")) == In && LoadPref(Some("all\n")) == All && LoadPref(None) == Open
  {
    assert PrefText(Open) + "\n" == "open\n" && PrefText(Out) + "\n" == "out\n";
    assert PrefText(In) + "\n" == "in\n" && PrefText(All) + "\n" == "all\n";
    assert LoadPref(None) == Open;
    hide LoadPref, PrefText;
    PrefLine(Open, "open\n");
    PrefLine(Out, "out\n");
    PrefLine(In, "in\n");
    PrefLine(All, "all\n");
  }

  /** The words that the mode file holds, and what a missing file means. */
  lemma ModeWords()
    ensures LoadMode(Some("paused\n")) == Paused && LoadMode(Some("active\n")) == Active && LoadMode(None) == Paused
  {
    assert ModeText(Paused) + "\n" == "paused\n" && ModeText(Active) + "\n" == "active\n";
    assert LoadMode(None) == Paused;
    ModeRoundTrip(Paused);
    ModeRoundTrip(Active);
    hide LoadMode, ModeText;
  }

  /** Any other content reads as open, or as paused. */
  lemma OtherWords(raw: string)
    ensures Trim(raw) !in {"out", "in", "all"} ==> LoadPref(Some(raw)) == Open
    ensures Trim(raw) != "active" ==> LoadMode(Some(raw)) == Paused
  {
    hide Trim;
  }

  // ------------------------------------------------------------ preference files

  function PrefText(p: Preference): string {
    match p
    case Open => "open"
    case Out => "out"
    case In => "in"
    case All => "all"
  }

  function ParsePref(raw: string): Option<Preference> {
    var s := Trim(raw);
    if s == "open" then Some(Open) else if s == "out" then Some(Out)
    else if s == "in" then Some(In) else if s == "all" then Some(All) else None
  }

  /** `traffic_mode::load`: a missing or invalid file reads as open. */
  function LoadPref(file: Option<string>): Preference {
    if file.None? then Open else ParsePref(file.value).GetOr(Open)
  }

  function ModeText(m: Mode): string {
    if m.Paused? then "paused" else "active"
  }

  function ParseMode(raw: string): Option<Mode> {
    var s := Trim(raw);
    if s == "paused" then Some(Paused) else if s == "active" then Some(Active) else None
  }

  /** `enforcement_mode::load`: a missing or invalid file reads as paused. */
  function LoadMode(file: Option<string>): Mode {
    if file.None? then Paused else ParseMode(file.value).GetOr(Paused)
  }

  lemma TrimLine(w: string)
    requires w != "" && !IsSpace(w[0]) && !IsSpace(w[|w| - 1])
    ensures Trim(w + "\n") == w
  {
    var line := w + "\n";
    assert |line| - 1 == |w| && line[|line| - 1] == '\n' && line[..|line| - 1] == w;
    assert TrimEnd(line) == TrimEnd(w) == w;
  }

  /** What `store` writes is what `load` reads. */
  lemma PrefRoundTrip(p: Preference)
    ensures LoadPref(Some(PrefText(p) + "\n")) == p
  {
    TrimLine(PrefText(p));
    hide Trim;
  }

  lemma ModeRoundTrip(m: Mode)
    ensures LoadMode(Some(ModeText(m) + "\n")) == m
  {
    TrimLine(ModeText(m));
    hide Trim;
  }

  // ------------------------------------------------------------ user files

  function UserPrefix(): string { "traffic.user." }

  function UserFile(uid: nat): string { UserPrefix() + Show(uid) }

  /** The uid a directory entry stands for: the suffix is parsed, so `007` and `+7` also stand for 7. */
  function UidOf(name: string): Option<nat> {
    if UserPrefix() <= name then Parse(name[|UserPrefix()|..], U32_MAX) else None
  }

  lemma UserFileNames(uid: nat)
    requires uid <= U32_MAX
    ensures UidOf(UserFile(uid)) == Some(uid)
  {
    ParseOfShow(uid, U32_MAX);
    hide UserPrefix, Parse;
    assert UserFile(uid)[|UserPrefix()|..] == Show(uid);
  }

  type Files = map<string, string>

  /** This entry makes the uid's preference `pref`, and it is a block. */
  predicate BlockEntry(files: Files, name: string, u: (nat, Preference)) {
    name in files && UidOf(name) == Some(u.0) && LoadPref(Some(files[name])) == u.1 && IsBlocked(u.1)
  }

  predicate SortedByUid(users: Users) {
    forall i, j :: 0 <= i < j < |users| ==> users[i].0 <= users[j].0
  }

  /** The blocking user preferences in the directory, sorted by uid. */
  ghost predicate Listing(files: Files, users: Users) {
    SortedByUid(users) && forall u :: u in users <==> exists name :: BlockEntry(files, name, u)
  }

  function InsertByUid(users: Users, u: (nat, Preference)): (r: Users)
    ensures forall x :: x in r <==> x == u || x in users
  {
    if users == [] || u.0 < users[0].0 then [u] + users
    else
      assert users == [users[0]] + users[1..];
      [users[0]] + InsertByUid(users[1..], u)
  }

  /** `sort_by_key` on the uid. */
  function SortByUid(users: Users): (r: Users)
    ensures forall x :: x in r <==> x in users
  {
    if users == [] then []
    else
      assert users == users[..|users| - 1] + [users[|users| - 1]];
      InsertByUid(SortByUid(users[..|users| - 1]), users[|users| - 1])
  }

  lemma {:induction false} InsertSorted(users: Users, u: (nat, Preference))
    requires SortedByUid(users)
    ensures SortedByUid(InsertByUid(users, u))
  {
    if users != [] && u.0 >= users[0].0 {
      InsertSorted(users[1..], u);
      var rest := InsertByUid(users[1..], u);
      forall i | 0 <= i < |rest| ensures users[0].0 <= rest[i].0 {
        assert rest[i] in rest;
      }
    }
  }

  lemma {:induction false} SortSorted(users: Users)
    ensures SortedByUid(SortByUid(users))
  {
    if users != [] {
      SortSorted(users[..|users| - 1]);
      InsertSorted(SortByUid(users[..|users| - 1]), users[|users| - 1]);
    }
  }

  /** The file that commands write for a uid is listed with its preference, unless that is open. */
  lemma OwnFileIsListed(files: Files, users: Users, uid: nat)
    requires Listing(files, users) && uid <= U32_MAX
    ensures var name := "traffic.user." + Show(uid);
            name in files && LoadPref(Some(files[name])) != Open ==> (uid, LoadPref(Some(files[name]))) in users
  {
    UserFileNames(uid);
    assert UserFile(uid) == "traffic.user." + Show(uid);
    hide LoadPref, UidOf, Show;
    var name := UserFile(uid);
    if name in files && LoadPref(Some(files[name])) != Open {
      assert BlockEntry(files, name, (uid, LoadPref(Some(files[name]))));
    }
  }

  /** `load_user_blocks`: the directory is read in any order. */
  method LoadUserBlocks(files: Files) returns (users: Users)
    ensures Listing(files, users)
    ensures forall i, j :: 0 <= i < j < |users| ==> users[i].0 <= users[j].0
    ensures forall u :: u in users ==> u.1 in {Out, In, All} && exists name :: name in files && UidOf(name) == Some(u.0)
  {
    hide UidOf, LoadPref;
    var todo := files.Keys;
    var found: Users := [];
    while todo != {}
      invariant todo <= files.Keys
      invariant forall u :: u in found <==> exists name :: name !in todo && BlockEntry(files, name, u)
      decreases |todo|
    {
      var name :| name in todo;
      var uid, preference := UidOf(name), LoadPref(Some(files[name]));
      var before := found;
      if uid.Some? && IsBlocked(preference) {
        found := found + [(uid.value, preference)];
        assert BlockEntry(files, name, (uid.value, preference));
      }
      assert forall u :: BlockEntry(files, name, u) ==> uid == Some(u.0) && u.1 == preference && IsBlocked(preference);
      forall u ensures u in found <==> exists n :: n !in todo - {name} && BlockEntry(files, n, u) {
        if u in before {
          var n :| n !in todo && BlockEntry(files, n, u);
        }
      }
      todo := todo - {name};
    }
    users := SortByUid(found);
    SortSorted(found);
    forall u ensures u in users <==> exists name :: BlockEntry(files, name, u) {
      if name :| BlockEntry(files, name, u) {
        assert name !in todo;
      }
    }
  }
}
