/**
 * The fixed values of Vienna/TreeNode.h: the reserved folder node IDs and
 * the layout of a folder's permission word, a folder type in the low fifteen
 * bits (MA_FolderType_Mask) and a lock flag in bit 15 (MA_LockedFolder). The
 * three macros there test a folder's permissions; here they take the
 * permission word itself.
 */
module TreeNode {

  /** An NSInteger permission word. */
  type Permissions = bv64

  // Predefined node IDs; they must always be > 0.
  const ROOT_NODE_ID := 1
  const OUTBOX_NODE_ID := 2
  const DRAFT_NODE_ID := 3
  const CONFERENCE_NODE_ID := 4
  const MAX_RESERVED_NODE_ID := 4

  // Folder types and the two masks.
  const EMPTY_FOLDER: Permissions := 0
  const READ_ONLY_FOLDER: Permissions := 1
  const READ_WRITE_FOLDER: Permissions := 2
  const SEARCH_FOLDER: Permissions := 3
  const RSS_FOLDER: Permissions := 4
  const FOLDER_TYPE_MASK: Permissions := 0x7FFF
  const LOCKED_FOLDER: Permissions := 0x8000

  /** A node ID reserved for a predefined folder. */
  predicate IsReservedNodeId(id: int) {
    0 < id <= MAX_RESERVED_NODE_ID
  }

  /**
   * The four predefined node IDs are positive, pairwise distinct, and are
   * exactly the reserved IDs.
   */
  lemma ReservedNodeIds(id: int)
    ensures IsReservedNodeId(id) <==> id in {ROOT_NODE_ID, OUTBOX_NODE_ID, DRAFT_NODE_ID, CONFERENCE_NODE_ID}
    ensures |{ROOT_NODE_ID, OUTBOX_NODE_ID, DRAFT_NODE_ID, CONFERENCE_NODE_ID}| == 4
  {
  }

  /** The folder type: the permission word masked with MA_FolderType_Mask. */
  function FolderType(p: Permissions): (t: Permissions)
    ensures t <= FOLDER_TYPE_MASK
    ensures t & LOCKED_FOLDER == 0
  {
    p & FOLDER_TYPE_MASK
  }

  /** IsSearchFolder: the low sixteen bits are a search folder, locked or not. */
  predicate IsSearchFolder(p: Permissions)
    ensures IsSearchFolder(p) <==> p & 0xFFFF == 0x0003 || p & 0xFFFF == 0x8003
  {
    FolderType(p) == SEARCH_FOLDER
  }

  /** IsRSSFolder: the low sixteen bits are an RSS folder, locked or not. */
  predicate IsRSSFolder(p: Permissions)
    ensures IsRSSFolder(p) <==> p & 0xFFFF == 0x0004 || p & 0xFFFF == 0x8004
  {
    FolderType(p) == RSS_FOLDER
  }

  /**
   * The value of IsFolderLocked: the lock bit of the word, zero when clear
   * and MA_LockedFolder when set.
   */
  function FolderLockedValue(p: Permissions): (v: Permissions)
    ensures v == 0 || v == LOCKED_FOLDER
  {
    p & LOCKED_FOLDER
  }

  /** IsFolderLocked, used as a condition: its value is nonzero, exactly when bit 15 is set. */
  predicate IsFolderLocked(p: Permissions)
    ensures IsFolderLocked(p) <==> (p >> 15) & 1 == 1
  {
    FolderLockedValue(p) != 0
  }

  /**
   * An independent reading of the layout: the word built from a folder type
   * and a lock flag, with every other bit clear.
   */
  function MakePermissions(folderType: Permissions, locked: bool): Permissions
    requires folderType <= FOLDER_TYPE_MASK
  {
    if locked then folderType + LOCKED_FOLDER else folderType
  }

  /** The type mask and the lock bit are disjoint. */
  lemma MasksDisjoint()
    ensures FOLDER_TYPE_MASK & LOCKED_FOLDER == 0
    ensures FOLDER_TYPE_MASK | LOCKED_FOLDER == 0xFFFF
  {
  }

  /** Reading a built word gives back its type and its lock flag. */
  lemma MakeRoundTrip(folderType: Permissions, locked: bool)
    requires folderType <= FOLDER_TYPE_MASK
    ensures FolderType(MakePermissions(folderType, locked)) == folderType
    ensures IsFolderLocked(MakePermissions(folderType, locked)) == locked
  {
  }

  /** IsFolderLocked does not depend on the type bits: replacing them does not change it. */
  lemma LockIndependentOfType(p: Permissions, folderType: Permissions)
    requires folderType <= FOLDER_TYPE_MASK
    ensures IsFolderLocked((p & !FOLDER_TYPE_MASK) | folderType) == IsFolderLocked(p)
  {
  }

  /** Setting the lock bit locks the folder and keeps its type. */
  lemma LockKeepsType(p: Permissions)
    ensures IsFolderLocked(p | LOCKED_FOLDER)
    ensures FolderType(p | LOCKED_FOLDER) == FolderType(p)
  {
    assert (p | LOCKED_FOLDER) & FOLDER_TYPE_MASK == p & FOLDER_TYPE_MASK;
  }

  /** Clearing the lock bit unlocks the folder and keeps its type. */
  lemma UnlockKeepsType(p: Permissions)
    ensures !IsFolderLocked(p & !LOCKED_FOLDER)
    ensures FolderType(p & !LOCKED_FOLDER) == FolderType(p)
  {
    assert (p & !LOCKED_FOLDER) & FOLDER_TYPE_MASK == p & FOLDER_TYPE_MASK;
  }

  /** Setting or clearing the lock bit changes neither type test. */
  lemma LockPreservesTypeTests(p: Permissions)
    ensures IsSearchFolder(p | LOCKED_FOLDER) == IsSearchFolder(p)
    ensures IsSearchFolder(p & !LOCKED_FOLDER) == IsSearchFolder(p)
    ensures IsRSSFolder(p | LOCKED_FOLDER) == IsRSSFolder(p)
    ensures IsRSSFolder(p & !LOCKED_FOLDER) == IsRSSFolder(p)
  {
    LockKeepsType(p);
    UnlockKeepsType(p);
  }

  /** No permission word makes a folder both a search folder and an RSS folder. */
  lemma SearchAndRSSExclusive(p: Permissions)
    ensures !(IsSearchFolder(p) && IsRSSFolder(p))
  {
  }
}
