/** The JSON-file user store: `data/users.json`, read whole and written whole on
    every operation, and dated copies of it under `data/backups/`. */
module FileOperations {
  import opened Wrappers
  import opened Strings
  import opened Seqs
  import opened UserRecords

  const BackupFilePrefix := "users_backup_"
  const BackupFileSuffix := ".json"

  /** `users_backup_${iso.split("T")[0]}.json`. */
  function BackupFileName(iso: string): (r: string)
    ensures StartsWith(r, BackupFilePrefix)
    ensures 'T' in iso ==> |r| < |BackupFilePrefix| + |iso| + |BackupFileSuffix|
  {
    BackupFilePrefix + Split(iso, 'T')[0] + BackupFileSuffix
  }

  /** An ISO timestamp `YYYY-MM-DDTHH:mm:ss.sssZ` names its backup by its date. */
  lemma BackupFileNameOfTimestamp(date: string, time: string)
    requires 'T' !in date
    ensures BackupFileName(date + "T" + time) == BackupFilePrefix + date + BackupFileSuffix
  {
    assert date + "T" + time == date + ['T'] + time;
    BeforeFirstOfJoined(date, time, 'T');
  }

  /** Two timestamps of the same day write the same backup file. */
  lemma SameDaySameBackup(date: string, t1: string, t2: string)
    requires 'T' !in date
    ensures BackupFileName(date + "T" + t1) == BackupFileName(date + "T" + t2)
  {
    BackupFileNameOfTimestamp(date, t1);
    BackupFileNameOfTimestamp(date, t2);
  }

  class UserFile {
    /** What `data/users.json` holds. */
    var usersFile: JsonFile<UserData>
    /** The files under `data/backups/`, by name. */
    var backups: map<string, seq<UserData>>

    constructor (initial: JsonFile<UserData>)
      ensures usersFile == initial && backups == map[]
    {
      usersFile := initial;
      backups := map[];
    }

    /** `getAllUsers`: the stored list, or `[]` when the file cannot be read or parsed. */
    function GetAllUsers(): (r: seq<UserData>)
      reads this
      ensures usersFile.Holds? ==> r == usersFile.items
      ensures !usersFile.Holds? ==> r == []
    {
      Loaded(usersFile)
    }

    /** `saveUsers`: overwrites the users file. */
    method SaveUsers(users: seq<UserData>)
      modifies this
      ensures usersFile == Holds(users)
      ensures backups == old(backups)
    {
      usersFile := Holds(users);
    }

    /** `addUser`: appends a new record, with no check for an existing email,
        mobile number or id, and returns it. */
    method AddUser(input: NewUserInput, d: Draws) returns (r: UserData)
      requires ValidDraws(d)
      modifies this
      ensures r == NewUser(input, d)
      ensures usersFile == Holds(old(GetAllUsers()) + [r])
      ensures backups == old(backups)
    {
      var users := GetAllUsers();
      var newUser := NewUser(input, d);
      users := users + [newUser];
      SaveUsers(users);
      r := newUser;
    }

    /** `findUser`: the first record whose mobile number or email is `identifier`. */
    function FindUser(identifier: string): (r: Option<UserData>)
      reads this
      ensures r.Some? ==> r.value.mobileNo == identifier || r.value.emailId == identifier
      ensures r.Some? ==>
        exists i :: 0 <= i < |GetAllUsers()| && GetAllUsers()[i] == r.value
          && forall j :: 0 <= j < i ==>
               GetAllUsers()[j].mobileNo != identifier && GetAllUsers()[j].emailId != identifier
      ensures r.None? <==>
        forall j :: 0 <= j < |GetAllUsers()| ==>
          GetAllUsers()[j].mobileNo != identifier && GetAllUsers()[j].emailId != identifier
    {
      Find(GetAllUsers(), MatchesIdentifier(identifier))
    }

    /** `updateUser`: merges `updates` into the first record with id `id` and
        stamps `updatedAt`; `None` (and no write) when there is none. */
    method UpdateUser(id: string, updates: UserPatch, now: string) returns (r: Option<UserData>)
      modifies this
      ensures r == UpdateUsers(old(GetAllUsers()), id, updates, now).0
      ensures r.None? ==> usersFile == old(usersFile)
      ensures r.Some? ==> usersFile == Holds(UpdateUsers(old(GetAllUsers()), id, updates, now).1)
      ensures backups == old(backups)
    {
      var users := GetAllUsers();
      var userIndex := FindIndex(users, HasId(id));
      if userIndex.None? {
        return None;
      }
      var i := userIndex.value;
      users := users[i := Updated(users[i], updates, now)];
      SaveUsers(users);
      r := Some(users[i]);
    }

    /** `createDailyBackup`: copies the current list into the backup named by
        the day of `iso`, replacing an earlier backup of the same day. */
    method CreateDailyBackup(iso: string)
      modifies this
      ensures backups == old(backups)[BackupFileName(iso) := old(GetAllUsers())]
      ensures usersFile == old(usersFile)
    {
      var users := GetAllUsers();
      var timestamp := Split(iso, 'T')[0];
      var backupFile := BackupFilePrefix + timestamp + BackupFileSuffix;
      backups := backups[backupFile := users];
    }
  }

  /** A stored record answers `findUser` by its own mobile number or email, or a
      record stored before it answers—never a record stored after it. */
  lemma AddedUserIsFound(before: seq<UserData>, u: UserData, identifier: string)
    requires identifier == u.mobileNo || identifier == u.emailId
    ensures Find(before + [u], MatchesIdentifier(identifier)).Some?
    ensures Find(before + [u], MatchesIdentifier(identifier)).value == u
            || Find(before + [u], MatchesIdentifier(identifier)).value in before
  {
    FindAfterAppend(before, u, identifier);
  }
}
