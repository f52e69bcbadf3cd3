# Vienna (Vole) byte scanners, task ordering and folder permissions in Dafny

This project models four small parts of the Vienna/Vole conferencing client.
Each part is proved against a specification.

- **The CP1252 / UTF-8 normaliser** (`utf8process` and `check_utf8`, module `Utf8Process`).
  - The normaliser walks a NUL-terminated byte string.
  - It copies ASCII bytes and every multi-byte sequence that `check_utf8` accepts.
  - It replaces every other byte with that byte's UTF-8 entry from a Windows-1252 code table.
  - `check_utf8` is the counting loop `CheckUtf8`, proved equal to the function `Verdict`.
  - `utf8process` is the array method `Utf8Process`, proved equal to the function `Process` on the string's contents.
  - Lemmas connect `Verdict` and `Process` to the UTF-8 syntax of section 4 of RFC 3629, which module `Rfc3629` writes out as predicates.
- **The in-place sanitiser** (`sanitise_string`, module `SanitiseString`). It rewrites each byte of a C string through a 256-entry table, up to the terminator.
- **The task record** (`VTask`, module `Tasks`).
  - The model covers the task, result and order codes, and the mutable `VTask` object with its setters.
  - It also covers the two comparisons and the rule that a lower order code runs earlier.
  - Lemmas show that a queue sorted by `taskCompare` runs the phases of a connect session in the documented order.
- **The folder permission word and the reserved node IDs** (module `TreeNode`). The permission word is a type in the bits `0x7FFF` and a lock flag in bit `0x8000`.

Module `CString` holds the bytes, `strlen` and the NUL-terminated-string helpers that the two scanners share.

## Model

| member | source | states |
|---|---|---|
| CString.Strlen | Vienna/utf8-process.c:64 | the result is the index of the first NUL; no byte before it is NUL |
| Utf8Process.Classify | Vienna/utf8-process.c:38-45 | each result in closed form: 1 when the code point is above U+10FFFF (or negative); 2 when it is in range but below the minimum for its length; 3 when it is in range, not overlong and a surrogate; 0 otherwise |
| Utf8Process.CheckUtf8 | Vienna/utf8-process.c:24-50 | the loop decodes `length` bytes and returns `Verdict` of them, a value from 0 to 3 |
| Utf8Process.CodePointValue | Vienna/utf8-process.c:34-37 | for a lead byte with well-formed continuation bytes, the decoded value is the usual sum of 6-bit payloads for each length |
| Utf8Process.VerdictIsRfc3629 | Vienna/utf8-process.c:13-45 | for a 110/1110/11110 lead byte with the right number of continuation bytes, `check_utf8` returns 0 exactly when the bytes form a UTF8-char of RFC 3629 |
| Utf8Process.ValidTail | Vienna/utf8-process.c:21 | `valid_tail` holds exactly for the continuation bytes 10xxxxxx of RFC 3629 |
| Utf8Process.Step | Vienna/utf8-process.c:72-112 | how many bytes one pass copies verbatim: at most 4, never beyond the terminator, which the continuation tests only reach through their short-circuit |
| Utf8Process.Advance | Vienna/utf8-process.c:71-113 | each pass consumes between 1 and the remaining number of bytes, so the index strictly increases and the loop ends |
| Utf8Process.StepAscii | Vienna/utf8-process.c:72-76 | exactly one byte is copied and consumed exactly when it is below 0x80 |
| Utf8Process.StepIsUtf8Char | Vienna/utf8-process.c:78-106 | the bytes copied verbatim form a UTF-8 character; every UTF-8 character at the front of the rest is copied verbatim |
| Utf8Process.NonUtf8LeadFallsBack | Vienna/utf8-process.c:107-112 | stray continuation bytes, C0, C1 and F5-FF always go to the code table |
| Utf8Process.WellFormedPassesThrough | Vienna/utf8-process.c:78-106 | a well-formed UTF-8 string comes out unchanged, whatever the table |
| Utf8Process.ProcessBound | Vienna/utf8-process.c:65-115 | with table entries of at most 4 bytes, the output is at most 4 times the input length, so it fits the `end*4+1` buffer whenever that size does not wrap in `size_t` |
| Utf8Process.ProcessHasNoNul | Vienna/utf8-process.c:109-115 | the output holds no NUL, so the final terminator ends it |
| Utf8Process.ProcessIsUtf8 | Vienna/utf8-process.c:1-4 | if the table maps every byte from 0x80 up to well-formed UTF-8, the output is well-formed UTF-8 for every input |
| Utf8Process.ProcessIdempotent | Vienna/utf8-process.c:1-4 | under the same table condition, normalising the output again changes nothing |
| Utf8Process.Strcpy | Vienna/utf8-process.c:109 | the entry's bytes and a NUL are written at the write offset; nothing else in the buffer changes |
| Utf8Process.CopyBytes | Vienna/utf8-process.c:22 | `n` uses of `copy()` append the next `n` input bytes at the write offset and advance both indices by `n` |
| Utf8Process.CopyIfAccepted | Vienna/utf8-process.c:80-85 | when `check_utf8` accepts the sequence, the bytes are copied as `Step` says; otherwise nothing is written and control falls to the code-table path |
| Utf8Process.Cp1252 | Vienna/utf8-process.c:107-112 | a byte that starts no accepted sequence is replaced by its code-table entry and consumes exactly one input byte |
| Utf8Process.ScanOne | Vienna/utf8-process.c:72-112 | one pass of the loop body advances the input index by `Advance`, appends `Chunk`, and keeps the output within 4 bytes per input byte consumed |
| Utf8Process.Utf8Process | Vienna/utf8-process.c:57-118 | NULL input or a failed allocation gives NULL. Otherwise the result is a fresh buffer of `4*strlen+1` bytes whose string is `Process` of the input string |
| SanitiseString.MapBytes | Vienna/sanitise_string.c:17-18 | the mapped string has the same length, and position k holds `table[s[k]]` |
| SanitiseString.Sanitise | Vienna/sanitise_string.c:5-20 | NULL is returned unchanged. Otherwise the same pointer is returned, and the buffer becomes `Sanitised` of its old contents: mapped bytes before the old terminator, every byte from the terminator on untouched |
| SanitiseString.SanitisedAt | Vienna/sanitise_string.c:17-18 | the buffer keeps its size; position k before the original terminator holds `table[old k]`; from the terminator on the old bytes stay |
| SanitiseString.SanitisedLength | Vienna/sanitise_string.c:17-18 | if no non-NUL byte maps to NUL, the string keeps its length and its contents are the mapped contents |
| SanitiseString.SanitisedTruncates | Vienna/sanitise_string.c:17-18 | a byte that maps to NUL cuts the resulting string short at that position |
| SanitiseString.SanitiseTwice | Vienna/sanitise_string.c:17-18 | if no non-NUL byte maps to NUL, sanitising twice equals sanitising once with the composed table |
| Tasks.ActionCode | Vienna/VTask.h:26-47 | every action's task code lies between 1 and 21 |
| Tasks.ActionCodeRoundTrip | Vienna/VTask.h:24-47 | decoding inverts encoding, so the 21 task codes are pairwise distinct; exactly the codes 1 to 21 decode, and the sentinel NoTask (0) names no action |
| Tasks.ResultCode | Vienna/VTask.h:51-54 | every result code lies between 1 and 4 |
| Tasks.ResultCodeRoundTrip | Vienna/VTask.h:51-54 | Succeeded, Waiting, Failed and Running have pairwise distinct codes, and exactly the codes 1 to 4 decode |
| Tasks.OrderCodeOf | Vienna/VTask.h:64-78 | order codes lie from 50 to 800; SetCIXBack alone has the lowest and GetRSS alone the highest |
| Tasks.VTask.constructor | Vienna/VTask.h:80-90 | a new task has every field zero, empty or unset |
| Tasks.VTask.SetTaskId | Vienna/VTask.h:103 | sets `taskId` and leaves every other field unchanged |
| Tasks.VTask.SetOrderCode | Vienna/VTask.h:104 | sets `orderCode` and leaves every other field unchanged |
| Tasks.VTask.SetActionCode | Vienna/VTask.h:105 | sets `actionCode` and leaves every other field unchanged |
| Tasks.VTask.SetActionData | Vienna/VTask.h:106 | sets `actionData` and leaves every other field unchanged |
| Tasks.VTask.SetFolderName | Vienna/VTask.h:107 | sets `folderName` and leaves every other field unchanged |
| Tasks.VTask.SetResultCode | Vienna/VTask.h:108 | sets `resultCode` and leaves every other field unchanged |
| Tasks.VTask.SetResultString | Vienna/VTask.h:109 | sets `resultString` and leaves every other field unchanged |
| Tasks.VTask.SetLastRunDate | Vienna/VTask.h:111 | sets `lastRunDate` and leaves every other field unchanged |
| Tasks.VTask.SetEarliestRunDate | Vienna/VTask.h:112 | sets `earliestRunDate` and leaves every other field unchanged |
| Tasks.VTask.CompareForUniqueness | Vienna/VTask.h:115 | for a task with a known action code, another task duplicates it exactly when it performs the same action on the same action data |
| Tasks.VTask.TaskCompare | Vienna/VTask.h:116 | ascending exactly when this task's order code is lower, descending exactly when it is higher (lower codes run earlier, line 57) |
| Tasks.TaskCompareFlip | Vienna/VTask.h:116 | swapping the operands swaps ascending and descending and keeps a tie |
| Tasks.UniquenessIsEquivalence | Vienna/VTask.h:115 | `compareForUniqueness:` is reflexive, symmetric and transitive, and two well-coded tasks it identifies tie in dispatch order |
| Tasks.OrderCodesAscend | Vienna/VTask.h:57 | along a queue sorted by `taskCompare`, order codes never decrease |
| Tasks.LowerRunsEarlier | Vienna/VTask.h:57 | in a sorted queue, a task with a lower order code comes earlier |
| Tasks.ActionRunsBefore | Vienna/VTask.h:56-78 | in a sorted queue of well-coded tasks, an action whose order code is lower runs before every task of the other action |
| Tasks.ModeratorBeforeJoinAndPost | Vienna/VTask.h:62-67 | moderator actions run before joining a folder and before posting |
| Tasks.JoinBeforeFolderWork | Vienna/VTask.h:60-69 | joining a folder runs before posting, filing and withdrawing messages |
| Tasks.PostBeforeResign | Vienna/VTask.h:59-71 | posting runs before resigning a folder |
| Tasks.SetCIXBackFirst | Vienna/VTask.h:62-78 | SetCIXBack runs before every other action |
| Tasks.ConfListAfterRead | Vienna/VTask.h:61-75 | the conference list is fetched after new messages are read |
| Tasks.GetRSSLast | Vienna/VTask.h:64-78 | feed refresh runs after every other action |
| Tasks.TransfersTie | Vienna/VTask.h:73-74 | an upload and a download tie, and both orders of the two are sorted |
| TreeNode.ReservedNodeIds | Vienna/TreeNode.h:24-29 | the four predefined IDs are positive and pairwise distinct, and they are exactly the IDs up to `MA_Max_Reserved_NodeID` |
| TreeNode.FolderType | Vienna/TreeNode.h:42 | the folder type fits in `0x7FFF` and never includes the lock bit |
| TreeNode.IsSearchFolder | Vienna/TreeNode.h:46 | true exactly when the low 16 bits are `MA_Search_Folder`, with or without the lock bit |
| TreeNode.IsRSSFolder | Vienna/TreeNode.h:47 | true exactly when the low 16 bits are `MA_RSS_Folder`, with or without the lock bit |
| TreeNode.IsFolderLocked | Vienna/TreeNode.h:48 | the macro's value is nonzero exactly when bit 15 of the word is set |
| TreeNode.FolderLockedValue | Vienna/TreeNode.h:48 | `IsFolderLocked` yields 0 or `0x8000` |
| TreeNode.MasksDisjoint | Vienna/TreeNode.h:42-43 | the type mask and the lock bit share no bit, and together they cover the low 16 bits |
| TreeNode.MakeRoundTrip | Vienna/TreeNode.h:40-48 | a word built from a type and a lock flag reads back as that type and that flag |
| TreeNode.LockIndependentOfType | Vienna/TreeNode.h:42-48 | replacing the type bits with any folder type does not change `IsFolderLocked` |
| TreeNode.LockKeepsType | Vienna/TreeNode.h:43-48 | setting the lock bit locks the folder and keeps its type |
| TreeNode.UnlockKeepsType | Vienna/TreeNode.h:43-48 | clearing the lock bit unlocks the folder and keeps its type |
| TreeNode.LockPreservesTypeTests | Vienna/TreeNode.h:43-48 | locking or unlocking changes neither `IsSearchFolder` nor `IsRSSFolder` |
| TreeNode.SearchAndRSSExclusive | Vienna/TreeNode.h:40-47 | no permission word is both a search folder and an RSS folder |

## Left out

- The CP1252 tables are not part of this model (`cp1252utf8.h` and `sanitise_string_private.h`). Each table is a parameter: 256 code-table entries, and 256 bytes for the sanitiser.
- Utf8Process.Utf8Process: requires the code-table entries for the bytes 0x80 to 0xFF to satisfy `ValidEntry`. Bytes below 0x80 are copied directly, so their entries are never read and may be anything. `ValidEntry` means `nbytes` equals the length of `utf8bytes`, the entry is at most 4 bytes, and it holds no NUL. The real table is a fixed constant that is not shown, so this cannot be checked. Without it, `strcpy` and `output += nbytes` could disagree, or the `4*n+1` buffer could overflow.
- Utf8Process.Utf8Process: sizes are unbounded integers. In the source, `(end * 4) + 1` (`utf8-process.c:65`) is computed in `size_t` and wraps for a string longer than `(SIZE_MAX - 1) / 4` bytes; `malloc` then returns a buffer too small for the output. The model does not capture that overflow: its buffer always has `4*strlen+1` bytes.
- Utf8Process.Utf8Process: the outcome of `malloc` is the parameter `mallocSucceeds`. Freeing the buffer is the caller's business and is not modelled.
- Utf8Process.CheckUtf8: requires a length from 1 to 4. `utf8process` only calls it with 2, 3 or 4, and `initial_mask` and `unicode_min` have entries only up to 4.
- In `check_utf8`, `(codepoint << 6) | (b & 0x3f)` is written as `codepoint * 64 + (b & 0x3F)`. The low six bits of the shifted value are zero, and at most 21 bits are ever accumulated, so `int` never overflows. The `codepoint < 0` test is kept even though it cannot fire.
- The `goto cp1252` structure of the scanning loop is kept as methods: one pass is `ScanOne`, each multi-byte branch is `CopyIfAccepted`, and the `cp1252` label is `Cp1252`. A `return` from `ScanOne` plays the part of `continue`.
- Tasks.VTask.TaskCompare, Tasks.VTask.CompareForUniqueness: `VTask.m` is not part of this model. `taskCompare:` follows the rule at `VTask.h:57` (ascending order code). `compareForUniqueness:` compares the action code and the action data; this is the pair that identifies a pending task.
- Tasks.VTask.constructor: `-init` is in `VTask.m`, which is not part of this model. The constructor models the object as `+alloc` leaves it: every field zero, nil strings and dates as empty strings and unset dates.
- Tasks.VTask: nil strings are modelled as empty strings, and dates as optional integers. Reference counting is not modelled, and neither are the getters, which just read the fields.
- `setResultStringWithFormat:` (`VTask.h:110`) is left out: it does variadic string formatting.
- The action code and the order code are paired by name only. Callers pass them separately (`Database.h:127`), so `OrderCodeOf` and `WellCoded` state the pairing, and the ordering lemmas assume well-coded tasks.
- The task queue is not part of this model: `Database.h` holds only declarations. That covers adding with de-duplication, listing ready tasks, the `setTaskRunning`/`setTaskCompleted`/`setTaskWaiting` transitions, and tie-breaking by insertion order. Only the sorted-queue predicate `DispatchOrdered` is modelled.
- The `TreeNode` class is not modelled: its parent, child and folder links and its child-list methods are declared at `TreeNode.h:50-75` without bodies. The three macros take the permission word itself instead of a folder. `NSInteger` is modelled as a 64-bit word.
- The connection engine, sockets, threads and the rest of the application are outside the modelled core.
