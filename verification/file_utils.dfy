/**
 * The target-directory check run before any download: a decision over the outcome of
 * `os.Stat` on the target path. The stat call itself is an input.
 */
module FileUtils {

  /** Go's os.FileMode: permission bits in the low nine bits, the type bits at the top. */
  type FileMode = bv32

  /** os.ModeDir. */
  const ModeDir: FileMode := 0x8000_0000
  /** User read permission, octal 0400. */
  const UserRead: FileMode := 0x100
  /** User write permission, octal 0200. */
  const UserWrite: FileMode := 0x80

  /** The outcome of os.Stat: the file's mode, a does-not-exist error, or any other error. */
  datatype StatResult = Stat(mode: FileMode) | NotExist | StatFailed

  predicate IsDir(mode: FileMode)
  {
    mode & ModeDir != 0
  }

  predicate UserCanRead(mode: FileMode)
  {
    mode & UserRead != 0
  }

  predicate UserCanWrite(mode: FileMode)
  {
    mode & UserWrite != 0
  }

  /**
   * VerifyTarget: a failed stat rejects the target; a directory is accepted whatever its
   * permission bits; anything else is accepted when the user may both read and write it.
   */
  function VerifyTarget(stat: StatResult): (ok: bool)
    ensures ok <==> stat.Stat? && (IsDir(stat.mode) || (UserCanRead(stat.mode) && UserCanWrite(stat.mode)))
  {
    match stat
    case NotExist => false
    case StatFailed => false
    case Stat(mode) =>
      if IsDir(mode) then true
      else
        var userCanRead := UserCanRead(mode);
        var userCanWrite := UserCanWrite(mode);
        if userCanRead && userCanWrite then true
        else if !userCanRead && !userCanWrite then false
        else if !userCanRead then false
        else false
  }

  /** A missing path and any other stat error both reject the target. */
  lemma StatErrorsReject()
    ensures !VerifyTarget(NotExist) && !VerifyTarget(StatFailed)
  {
  }

  /** A directory is accepted even with no permission bits at all. */
  lemma DirectoryIgnoresPermissions(mode: FileMode)
    requires IsDir(mode)
    ensures VerifyTarget(Stat(mode))
    ensures VerifyTarget(Stat(ModeDir))
  {
  }

  /** A non-directory is rejected when either user bit is missing, in each of the three ways. */
  lemma MissingPermissionRejects(mode: FileMode)
    requires !IsDir(mode)
    ensures !UserCanRead(mode) && !UserCanWrite(mode) ==> !VerifyTarget(Stat(mode))
    ensures !UserCanRead(mode) && UserCanWrite(mode) ==> !VerifyTarget(Stat(mode))
    ensures UserCanRead(mode) && !UserCanWrite(mode) ==> !VerifyTarget(Stat(mode))
  {
    assert VerifyTarget(Stat(mode)) == (UserCanRead(mode) && UserCanWrite(mode));
  }

  /** The bits VerifyTarget looks at. */
  const DecisionBits: FileMode := ModeDir | UserRead | UserWrite

  lemma MaskKeepsBit(mode: FileMode, bit: FileMode)
    requires bit == ModeDir || bit == UserRead || bit == UserWrite
    ensures (mode & DecisionBits) & bit == mode & bit
  {
  }

  /** Two modes that agree on the directory bit and the user read and write bits are judged alike. */
  lemma SameDecisionBits(m: FileMode, k: FileMode)
    requires m & ModeDir == k & ModeDir && m & UserRead == k & UserRead && m & UserWrite == k & UserWrite
    ensures VerifyTarget(Stat(m)) == VerifyTarget(Stat(k))
  {
  }

  /**
   * Only three bits of the mode take part in the decision: the directory bit and the user
   * read and write bits. Group, other and the remaining type bits are ignored, so a
   * regular file with mode 0600 is accepted as a download target.
   */
  lemma OnlyDirAndUserBitsMatter(mode: FileMode)
    ensures VerifyTarget(Stat(mode)) == VerifyTarget(Stat(mode & DecisionBits))
    ensures VerifyTarget(Stat(UserRead | UserWrite))
  {
    MaskKeepsBit(mode, ModeDir);
    MaskKeepsBit(mode, UserRead);
    MaskKeepsBit(mode, UserWrite);
    SameDecisionBits(mode, mode & DecisionBits);
  }
}
