// The logic of the main component (App.tsx, and its copy src/App.tsx): the
// effect that repairs a signed-in user's record, the two counters of the
// settings page, the nickname check and the progress reset. The React state
// is left out: the effect takes the current user and hands back the record
// it would store; `Date.now()` is the parameter `now`.
module App {
  import opened Wrappers
  import opened Types
  import opened Strings
  import ProgressMap = Progress
  import AuthService

  /** `hangulProgress?.[k] || default`: a stored status (always a non-empty string) or the default. */
  function KeptOrDefault(stored: Option<Progress>, k: string): LessonStatus {
    if stored.Some? && k in stored.value then stored.value[k] else ProgressMap.DefaultStatus(k)
  }

  /** The progress map the effect writes: exactly the fourteen consonants, stored statuses kept. */
  function RebuiltProgress(stored: Option<Progress>): (p: Progress)
    ensures p.Keys == set k | k in ProgressMap.BasicConsonants
    ensures forall k :: k in p && stored.Some? && k in stored.value ==> p[k] == stored.value[k]
    ensures forall k :: k in p && !(stored.Some? && k in stored.value) ==> p[k] == ProgressMap.DefaultStatus(k)
  {
    map k | k in ProgressMap.BasicConsonants :: KeptOrDefault(stored, k)
  }

  /** The progress repair fires when the map is missing or has fewer than four keys. */
  predicate ProgressBroken(p: Option<Progress>) {
    p.None? || |p.value| < 4
  }

  /** The folder repair fires when there is no folder. */
  predicate FoldersBroken(folders: seq<VocabFolder>) {
    |folders| == 0
  }

  /**
   * The repair effect on a signed-in user: the record it stores, and
   * whether it stores one at all (`needsUpdate`).
   */
  method Repair(user: User, now: string) returns (updated: User, needsUpdate: bool)
    ensures needsUpdate <==> ProgressBroken(user.hangulProgress) || FoldersBroken(user.folders)
    ensures updated.hangulProgress ==
      if ProgressBroken(user.hangulProgress) then Some(RebuiltProgress(user.hangulProgress)) else user.hangulProgress
    ensures updated.folders ==
      if FoldersBroken(user.folders) then [VocabFolder(now, AuthService.DefaultFolderName, [])] else user.folders
    ensures updated.(hangulProgress := user.hangulProgress, folders := user.folders) == user
  {
    needsUpdate := false;
    updated := user;
    if updated.hangulProgress.None? || |updated.hangulProgress.value| < 4 {
      updated := updated.(hangulProgress := Some(RebuiltProgress(updated.hangulProgress)));
      needsUpdate := true;
    }
    if |updated.folders| == 0 {
      updated := updated.(folders := [VocabFolder(now, AuthService.DefaultFolderName, [])]);
      needsUpdate := true;
    }
  }

  /** The rebuilt map has the fourteen keys, so it never needs rebuilding again. */
  lemma RebuiltProgressWhole(stored: Option<Progress>)
    ensures |RebuiltProgress(stored)| == 14
    ensures !ProgressBroken(Some(RebuiltProgress(stored)))
  {
    ProgressMap.DefaultProgressShape();
    assert RebuiltProgress(stored).Keys == ProgressMap.DefaultProgress.Keys;
  }

  /** Without a stored map the effect writes the map a new account starts with. */
  lemma RebuiltFromNothing()
    ensures RebuiltProgress(None) == ProgressMap.DefaultProgress
  {
  }

  /** A repaired record needs no further repair: the effect is idempotent. */
  lemma RepairSettles(user: User, now: string, updated: User)
    requires updated.hangulProgress ==
      (if ProgressBroken(user.hangulProgress) then Some(RebuiltProgress(user.hangulProgress)) else user.hangulProgress)
    requires updated.folders ==
      (if FoldersBroken(user.folders) then [VocabFolder(now, AuthService.DefaultFolderName, [])] else user.folders)
    ensures !ProgressBroken(updated.hangulProgress) && !FoldersBroken(updated.folders)
  {
    RebuiltProgressWhole(user.hangulProgress);
  }

  /** A repair keeps every completed lesson among the fourteen consonants. */
  lemma RepairKeepsCompleted(stored: Progress, k: string)
    requires k in stored && stored[k] == Completed && k in ProgressMap.BasicConsonants
    ensures RebuiltProgress(Some(stored))[k] == Completed
  {
  }

  /** `folders.reduce((total, folder) => total + folder.words.length, total)`. */
  function SumFrom(folders: seq<VocabFolder>, total: nat): nat
    decreases |folders|
  {
    if folders == [] then total else SumFrom(folders[1..], total + |folders[0].words|)
  }

  /** The running total of the reduction adds up the sizes of all the folders. */
  lemma {:induction false} SumFromTotal(folders: seq<VocabFolder>, total: nat)
    ensures SumFrom(folders, total) == total + SavedWordCount(folders)
    decreases |folders|
  {
    if folders != [] {
      SumFromTotal(folders[1..], total + |folders[0].words|);
    }
  }

  /** The settings page's saved-word total over all folders. */
  function SavedWords(user: User): (n: nat)
    ensures n == SavedWordCount(user.folders)
    ensures user.folders == [] ==> n == 0
    ensures forall k :: 0 <= k < |user.folders| ==> |user.folders[k].words| <= n
  {
    SavedWordsBound(user.folders);
    SumFromTotal(user.folders, 0);
    SumFrom(user.folders, 0)
  }

  lemma {:induction false} SavedWordsBound(folders: seq<VocabFolder>)
    ensures forall k :: 0 <= k < |folders| ==> |folders[k].words| <= SavedWordCount(folders)
    decreases |folders|
  {
    if folders != [] {
      SavedWordsBound(folders[1..]);
      forall k | 0 <= k < |folders| ensures |folders[k].words| <= SavedWordCount(folders) {
        if k > 0 {
          assert folders[k] == folders[1..][k - 1];
        }
      }
    }
  }

  /** The settings page's completed-lesson count (`hangulProgress || {}`). */
  function CompletedLessons(user: User): (n: nat)
    ensures user.hangulProgress.None? ==> n == 0
    ensures user.hangulProgress.Some? ==> n <= |user.hangulProgress.value|
    ensures n == 0 <==> forall k :: k in user.hangulProgress.GetOr(map[]) ==> user.hangulProgress.value[k] != Completed
  {
    ProgressMap.CompletedCount(user.hangulProgress.GetOr(map[]))
  }

  /** The nickname is saved only when, trimmed, it has at least two characters. */
  predicate NicknameAccepted(nickname: string) {
    |Trim(nickname)| >= 2
  }

  /** A blank nickname is refused; a nickname without surrounding blanks is accepted iff it has two characters. */
  lemma NicknameCheck(nickname: string)
    ensures IsBlank(nickname) ==> !NicknameAccepted(nickname)
    ensures NicknameAccepted(nickname) ==> |nickname| >= 2
    ensures nickname != [] && !IsWhitespace(nickname[0]) && !IsWhitespace(nickname[|nickname| - 1]) ==>
      (NicknameAccepted(nickname) <==> |nickname| >= 2)
  {
    TrimIdempotent(nickname);
  }

  /** The reset button: the user with the fixed fourteen-key map, ㄱ unlocked, nothing completed. */
  function ResetProgress(user: User): (u: User)
    ensures u.hangulProgress == Some(ProgressMap.DefaultProgress)
    ensures u.(hangulProgress := user.hangulProgress) == user
    ensures CompletedLessons(u) == 0
  {
    ProgressMap.DefaultNothingCompleted();
    user.(hangulProgress := Some(ProgressMap.DefaultProgress))
  }

  /** After a reset the repair effect leaves the progress alone. */
  lemma ResetNeedsNoRepair(user: User)
    ensures !ProgressBroken(ResetProgress(user).hangulProgress)
  {
    ProgressMap.DefaultProgressShape();
  }
}
