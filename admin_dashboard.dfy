/** The admin dashboard: the search filter over the loaded users, the
    replace-by-id after an edit, and the avatar initials. */
module AdminDashboard {
  import opened Wrappers
  import opened Strings
  import opened Seqs
  import opened UserRecords

  /** The search predicate: the lower-cased term inside the lower-cased name,
      email or registration number, or the raw term inside the mobile number. */
  function SearchMatches(term: string): UserData -> bool {
    (u: UserData) =>
      Includes(ToLower(u.name), ToLower(term))
      || Includes(ToLower(u.emailId), ToLower(term))
      || Includes(u.mobileNo, term)
      || (u.registrationNumber.Some? && Includes(ToLower(u.registrationNumber.value), ToLower(term)))
  }

  /** The filter effect's result. */
  function FilteredUsers(users: seq<UserData>, term: string): (r: seq<UserData>)
    ensures |r| <= |users|
    ensures forall u :: u in r ==> u in users && SearchMatches(term)(u)
  {
    Filter(users, SearchMatches(term))
  }

  /** A user is shown exactly when it is loaded and matches the term, and the
      shown list keeps the loaded order. */
  lemma FilteredUsersExactly(users: seq<UserData>, term: string, u: UserData)
    ensures u in FilteredUsers(users, term) <==> u in users && SearchMatches(term)(u)
    ensures IsSubsequence(FilteredUsers(users, term), users)
  {
    if u in users && SearchMatches(term)(u) {
      FilterKeeps(users, SearchMatches(term), u);
    }
    FilterIsSubsequence(users, SearchMatches(term));
  }

  /** An empty search term shows every loaded user. */
  lemma EmptyTermShowsAll(users: seq<UserData>)
    ensures FilteredUsers(users, "") == users
  {
    forall k | 0 <= k < |users| ensures SearchMatches("")(users[k]) {
      IncludesEmpty(ToLower(users[k].name));
      assert ToLower("") == "";
    }
    FilterAll(users, SearchMatches(""));
  }

  /** `prev.map(user => user.id === updated.id ? updated : user)`. */
  function ReplaceById(users: seq<UserData>, updated: UserData): (r: seq<UserData>)
    ensures |r| == |users|
    ensures forall k :: 0 <= k < |users| ==> r[k] == if users[k].id == updated.id then updated else users[k]
  {
    ReplaceWhere(users, HasId(updated.id), updated)
  }

  /** With distinct ids, the replacement changes exactly the one entry with
      the updated user's id. */
  lemma ReplaceByUniqueId(users: seq<UserData>, updated: UserData, i: nat)
    requires i < |users| && users[i].id == updated.id
    requires forall j, k :: 0 <= j < k < |users| ==> users[j].id != users[k].id
    ensures ReplaceById(users, updated) == users[i := updated]
  {
    var r := ReplaceById(users, updated);
    forall k | 0 <= k < |users| ensures r[k] == users[i := updated][k] {
      if k != i {
        assert users[k].id != users[i].id;
      }
    }
  }

  /** `n[0]` joined into a string: an empty word contributes nothing. */
  function FirstLetter(w: string): (r: string)
    ensures |r| <= 1 && (w != "" ==> r == [w[0]])
  {
    if w == "" then "" else [w[0]]
  }

  function FirstLetters(words: seq<string>): string
    decreases |words|
  {
    if words == [] then "" else FirstLetter(words[0]) + FirstLetters(words[1..])
  }

  /** The avatar initials. */
  function Initials(name: string): string {
    ToUpper(FirstLetters(Split(name, ' ')))
  }

  /** `FirstLetters` distributes over concatenation. */
  lemma {:induction false} FirstLettersAppend(a: seq<string>, b: seq<string>)
    ensures FirstLetters(a + b) == FirstLetters(a) + FirstLetters(b)
    decreases |a|
  {
    if a == [] {
      assert a + b == b;
    } else {
      assert (a + b)[1..] == a[1..] + b;
      FirstLettersAppend(a[1..], b);
    }
  }

  /** The first letters of one word alone. */
  lemma FirstLettersOfWord(word: string)
    requires word != ""
    ensures FirstLetters([word]) == [word[0]]
  {
    assert [word][1..] == [];
  }

  /** Upper-casing works letter by letter across a concatenation. */
  lemma ToUpperAppend(a: string, b: string)
    ensures ToUpper(a + b) == ToUpper(a) + ToUpper(b)
  {
    var l := ToUpper(a + b);
    var r := ToUpper(a) + ToUpper(b);
    forall k | 0 <= k < |l| ensures l[k] == r[k] {
      if k < |a| { assert (a + b)[k] == a[k]; } else { assert (a + b)[k] == b[k - |a|]; }
    }
  }

  /** Initials are taken word by word: a first word followed by a space and
      the rest contributes its own upper-cased first letter, then the rest's
      initials. */
  lemma InitialsOfWords(word: string, rest: string)
    requires ' ' !in word && word != ""
    ensures Initials(word + " " + rest) == [UpperChar(word[0])] + Initials(rest)
  {
    assert word + " " + rest == word + [' '] + rest;
    SplitAppendFree(word, rest, ' ');
    FirstLettersAppend([word], Split(rest, ' '));
    FirstLettersOfWord(word);
    ToUpperAppend([word[0]], FirstLetters(Split(rest, ' ')));
  }

  /** A single word yields one upper-cased letter. */
  lemma InitialsOfWord(word: string)
    requires ' ' !in word && word != ""
    ensures Initials(word) == [UpperChar(word[0])]
  {
    BeforeFirstOfFree(word, ' ');
    assert Split(word, ' ') == [word];
    FirstLettersOfWord(word);
  }

  /** The dashboard's state. The filter effect keeps `filteredUsers` equal to
      the filter of `users` by `searchTerm`. */
  class DashboardState {
    var users: seq<UserData>
    var filteredUsers: seq<UserData>
    var searchTerm: string
    var isEditDialogOpen: bool
    var selectedUser: Option<UserData>
    var toasts: seq<string>

    ghost predicate Valid()
      reads this
    {
      filteredUsers == FilteredUsers(users, searchTerm)
    }

    constructor ()
      ensures Valid() && users == [] && searchTerm == "" && !isEditDialogOpen && selectedUser.None?
      ensures toasts == []
    {
      users := [];
      filteredUsers := [];
      searchTerm := "";
      isEditDialogOpen := false;
      selectedUser := None;
      toasts := [];
    }

    /** The filter effect, run after `users` or `searchTerm` changes. */
    method RunFilter()
      modifies this`filteredUsers
      ensures Valid()
    {
      filteredUsers := Filter(users, SearchMatches(searchTerm));
    }

    /** Typing into the search box. */
    method SetSearchTerm(term: string)
      modifies this`searchTerm, this`filteredUsers
      ensures searchTerm == term && Valid()
    {
      searchTerm := term;
      RunFilter();
    }

    /** `handleUserUpdated`: the edited user replaces the entries with its id,
        the dialog closes, a toast is raised, and the filter re-runs. */
    method HandleUserUpdated(updated: UserData)
      modifies this`users, this`filteredUsers, this`isEditDialogOpen, this`selectedUser, this`toasts
      ensures users == ReplaceById(old(users), updated)
      ensures !isEditDialogOpen && selectedUser.None?
      ensures toasts == old(toasts) + ["User updated successfully"]
      ensures Valid()
    {
      users := ReplaceById(users, updated);
      isEditDialogOpen := false;
      selectedUser := None;
      toasts := toasts + ["User updated successfully"];
      RunFilter();
    }
  }
}
