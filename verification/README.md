# Verification of the installation and image checks

A Dafny 4.11 model of the parts of the Insight agent platform whose correctness rests on state: the
Sandbox Package image verifier, the crash-safe Kubernetes installer, the hand-over between the two
provider containers, and three smaller state cores. `dafny verify dfyconfig.toml` checks everything.

Byte strings are Dafny strings whose characters stand for bytes; a Python `str` that was decoded from
UTF-8 is identified with its encoding. A raised exception is `None` (or `false`) in pure code and methods,
and the disappearance of the process in the state machines.

## The model

**Image layers.** `Layers` says what applying a layer means, as functions on a flat map from path strings to
nodes; the inode number of a node stands for the identity of the mutable `FsNode` object. `LayerEngine` is
the imperative engine over shared objects and is proved equal to those functions, failure for failure.
`LayerInvariant` has the heap invariant and the frame theorem: package layers only extend
`opt/insight/package`. `LayerMeaning` says in path strings what whiteouts hide, which entries are accepted and what
an accepted layer leaves at every path. `TreeRefinement` compares the flat map and its `startswith(path + "/")` tests with a
reference file system (a directory tree by components plus an inode table) whose rules are simpler: a
directory entry keeps what is below it, anything else replaces the subtree. `LayerOrder` shows that the
whiteouts of a layer are one filter and what its other entries settle to. `LayerReorder` says exactly when an
entry may pass a hard link, and proves that two accepted orders give the same values and sharing as long as hard
links keep their order and an entry stays on its side of the hard links that name its path.

**Tar and PAX.** `TarScan` is the raw scanner and `Pax` its record parser. The parser is proved to accept
exactly the language of self-counting records (the `pax` utility of IEEE Std 1003.1, "pax Extended Header").
`TarFraming` shows that accepted streams are tiled by headers, payloads and padding, and that the bytes of
PAX payloads cannot change the tiling. `TarLanguage` describes the accepted archives and their entries without
the scanner, and proves that the scanner accepts exactly those. `TarWriter` and `TarRoundTrip` write POSIX and
old GNU headers, split prefixes and local PAX headers and prove that the scanner returns exactly what was
written. `TarFields` says what the fields of a header mean without the functions that read them: sums of bytes,
concatenations of digits and blanks, and UTF-8 as the image of an encoder. `PackageImage` puts scanner and engine
together, from layer bytes to the final checks, and says exactly what is accepted; `PackageAcceptance` shows what
is sure to be.

**Provider initialisation.** `ProviderMachine` is the installer as a state machine over a durable state file,
a process, a cluster and a log; every step makes at most one save or one external effect, the process may
vanish between any two, and the cluster may act late, lose requests, fail Jobs and delete Pods and Jobs.
`ProviderSafety` has the inductive invariant and what it gives over every run. `ProviderEvidence` proves that every
effect and every record is due by the state file and the cluster, and that recorded proofs are true; `ProviderHistory`
proves what an installer must itself have observed and recorded before it goes on. `ProviderDeadEnds` and
`ProviderRecovery` say exactly after which crashes an installer can still finish when nobody else deletes a Job:
dead ends are never left, and from everywhere else a finishing run is built.

**Hand-over.** `HandOver` runs `ensure_provider` against a host whose answers and delays are arbitrary; its traces
are those of a small automaton. `HandOverSafety` judges them with a safety monitor, and `HandOverAnswers` reads off
their events when there is an answer, which, and why there is none. `OwnerReply` reads the owner's diagnostics.

**Smaller cores.** `ProcessGroup` (bounded buffers), `Publish` (no-replace publication under crashes) and
`SqlSplit` (quote- and parenthesis-aware splitting). `Common`, `Text` and `Paths` hold shared vocabulary, and
`PathNames` states paths in terms of substrings.

## Findings

- The step that restores a pending operation before a Job is re-run never changes anything: the dependency
  and observation steps already leave it alone (`ProviderSafety.RestoreChangesNothing`).
- A crash after an intent is durable and before its request is made is final: no later `up` or `resume` finishes,
  even when the intent is for a read-only observation (`ProviderRecovery.CrashBeforeRequestIsFinal`). Runs that
  get there are given for the first permission and for the observation of a ready installation
  (`ProviderRecovery.StopsBeforeFirstRequest`, `ProviderRecovery.StopsBeforeObservation`).
- A provision or verify Job that succeeds with a foreign identity digest is final as well: only a failed Job is
  ever replaced. With these, the dead ends of the model are complete: when nobody else deletes a Job, `up` and
  `resume` can still finish if and only if nothing recorded is lost, where a provider Job or the initialiser Pod
  is lost when it was never requested, is gone, or ended badly, a first permission when it says `serve`, and an
  unrecorded provision or verify result when its digest is foreign; `verify` on a ready installation can if and
  only if its own result is not lost (`ProviderRecovery.RecoverableExactly`).
- The order of a hard link and another entry matters if and only if the link names the path of the entry: otherwise
  both orders, when accepted, give the same values and sharing (`LayerReorder.PassingExactly`, and
  `LayerReorder.BothSidesOfALink` for an input where both are accepted and differ).
- A self-counting PAX length is not unique: a record with eight other bytes may say 9 or 10
  (`Pax.NineOrTen`). The length of a body is unique if and only if its least self-counting length is not all
  nines (`Pax.LengthIsUniqueExactly`), so the ambiguous bodies have 8, 97, 996, 9995 ... bytes: one below a power
  of ten, less its number of digits (`Pax.AmbiguousBodies`). Either spelling decodes to the same record, no other
  does (`Pax.SpellingDecodesExactly`), and decoding is always unique (`Pax.PaxDecodingIsUnique`).
- After any run that has left no publisher a publication can still return if and only if the name is free, or the
  file there is readable and has the same bytes (`Publish.CanReturnExactly`). So a publisher killed between link and
  unlink, which leaves two links, ends all publication (`Publish.TwoLinksAreFinal`). A publication that returns has
  published its bytes for good (`Publish.DoneMeansPublished`), but its replay is rejected if and only if the file is
  empty or above the bound (`Publish.ReplayIsRejectedExactly`), since only the reader checks the size. Both callers pass between one byte
  and the bound (tools/install/public_trust.py:157 and :168), so they never meet that case.

## Model

| member | source | states |
|---|---|---|
| Paths.CanonicalPath | tools/checks/verify-platform-sandbox-package-image.py:175-209 | the component loop returns the join of the proper components, and fails exactly on empty, absolute, over-long, backslash, control-character, `..` and inner-empty names, on the root for a non-directory, and on a trailing slash for one |
| Paths.CanonicalFixedPoint | tools/checks/verify-platform-sandbox-package-image.py:175-209 | a non-empty path is a fixed point of canonicalisation exactly when all its components are proper |
| Paths.CanonicalIsIdempotent | tools/checks/verify-platform-sandbox-package-image.py:197-209 | canonicalising a non-empty canonical result gives it back, for either kind of entry |
| Paths.BelowIsProperComponentPrefix | tools/checks/verify-platform-sandbox-package-image.py:822-826 | `q.startswith(p + "/")` holds exactly when the components of p are a proper prefix of those of q, for all strings |
| Paths.ParentPathsAreTheAncestors | tools/checks/verify-platform-sandbox-package-image.py:849-852 | `parent_paths` yields exactly the paths that the given one is below |
| PathNames.CanonicalRejectsExactly | tools/checks/verify-platform-sandbox-package-image.py:175-209 | a name is rejected exactly if it is empty, longer than 4096 bytes, absolute, holds a backslash or control character, has `/../` in it when framed by slashes, or `//`; and, for a non-directory, ends in a slash or is only dots |
| PathNames.CanonicalOfConcat | tools/checks/verify-platform-sandbox-package-image.py:195-209 | the canonical path of two names joined by a slash is the join of their canonical paths |
| PathNames.CanonicalOfComponent | tools/checks/verify-platform-sandbox-package-image.py:195-209 | a single component stands for itself, a dot for nothing, and a trailing slash makes no difference |
| PathNames.NameAndParent | tools/checks/verify-platform-sandbox-package-image.py:818-831 | for every directory and slash-free name, `directory/name` has that base name and parent, and `name` alone has no parent |
| Pax.ParsePaxRecords | tools/checks/verify-platform-sandbox-package-image.py:478-513 | the offset loop computes the record function, within the size bound |
| Pax.PaxBothWays | tools/checks/verify-platform-sandbox-package-image.py:478-513 | a payload parses to given records if and only if it is within bounds and is a concatenation of self-counting records with distinct, non-empty, UTF-8, `=`-free keys |
| Pax.PaxDecodingIsUnique | tools/checks/verify-platform-sandbox-package-image.py:478-513 | no payload, of any size and with any keys, is a concatenation of two different record lists |
| Pax.SelfCountCounts | tools/checks/verify-platform-sandbox-package-image.py:487-498 | every body has a self-counting length |
| Pax.SelfCountIsLeast | tools/checks/verify-platform-sandbox-package-image.py:487-498 | and no shorter one than the writer's |
| Pax.TwoSelfCountingLengths | tools/checks/verify-platform-sandbox-package-image.py:487-498 | two self-counting lengths of one body differ by one and the longer is a power of ten |
| Pax.LengthIsUniqueExactly | tools/checks/verify-platform-sandbox-package-image.py:487-498 | the length of a body is unique if and only if its least self-counting length is not all nines; otherwise there are exactly two |
| Pax.AmbiguousBodies | tools/checks/verify-platform-sandbox-package-image.py:487-498 | the same condition on the number of other bytes alone: a power of ten less one and less its number of digits |
| Pax.SpellingDecodesExactly | tools/checks/verify-platform-sandbox-package-image.py:478-513 | a record written with any length decodes to that record if and only if the length counts itself and is within the bound |
| Pax.NineOrTen | tools/checks/verify-platform-sandbox-package-image.py:487-513 | at the shortest such input: eight other bytes allow 9 and 10, and both decode to the same record |
| Pax.PaxRoundTrip | tools/checks/verify-platform-sandbox-package-image.py:478-513 | parsing written records gives them back |
| TarFields.ChecksumOfReplaced | tools/checks/verify-platform-sandbox-package-image.py:617-621 | replacing one byte of a block changes its checksum by the difference of the two values, and by nothing inside the checksum field |
| TarFields.ChecksumOfZeros | tools/checks/verify-platform-sandbox-package-image.py:617-621 | the checksum of a zero block is 256, the eight blanks of the field |
| TarFields.TarNumberExactly | tools/checks/verify-platform-sandbox-package-image.py:453-461 | a number field is read as n exactly if it does not start with a byte above 127 and is blanks, octal digits of positional value n, and blanks |
| TarFields.TarTextExactly | tools/checks/verify-platform-sandbox-package-image.py:464-475 | a text field is read exactly if it is UTF-8 without NULs followed by NULs only |
| TarFields.Utf8Exactly | tools/checks/verify-platform-sandbox-package-image.py:472-475 | the validity table accepts exactly the encodings of sequences of Unicode scalar values |
| TarFields.HeaderExactly | tools/checks/verify-platform-sandbox-package-image.py:614-655 | a block that is the concatenation of its fields is read as a header exactly if that is what the fields say: magic and version, checksum of all other bytes, octal numbers, mode below 4096, texts, prefix only for POSIX |
| TarFields.DecimalExactly | tools/checks/verify-platform-sandbox-package-image.py:516-575 | a PAX number is read as n exactly if it is a non-empty string of decimal digits of that positional value |
| TarFields.RecordFitsExactly | tools/checks/verify-platform-sandbox-package-image.py:516-575 | a PAX record is acceptable exactly if it is an xattr with a printable name, a text key with UTF-8, a number key that says in decimal what the header says, or a time key with an ASCII number |
| TarScan.PaxFieldsExactly | tools/checks/verify-platform-sandbox-package-image.py:516-575 | records with distinct keys are accepted if and only if each is acceptable on its own (known key, valid text, number equal to the raw header, good xattr name), and then path, linkpath and xattrs are what they declare, in whatever order |
| TarScan.PaxEntryFields | tools/checks/verify-platform-sandbox-package-image.py:516-575 | the loop computes those fields and fails exactly when one record is unacceptable |
| TarScan.ScanRawTar | tools/checks/verify-platform-sandbox-package-image.py:578-764 | the stream loop computes the scan function: entries in order, or failure on any malformed header, payload, padding, duplicate path or end marker |
| TarFraming.AcceptedStreamIsTiled | tools/checks/verify-platform-sandbox-package-image.py:594-764 | an accepted stream is tiled from 0 by 512-aligned good headers, payloads and zero padding, then two zero blocks and only zeros; its entries match its member headers one for one in kind, mode, uid, gid, size and whiteout status |
| TarFraming.PaxCannotChangeFraming | tools/checks/verify-platform-sandbox-package-image.py:637-723 | two accepted archives that differ only inside local PAX payloads have the same frames and the same kind, numbers, size and whiteout status for every member |
| TarFraming.AcceptedEntriesAreCanonical | tools/checks/verify-platform-sandbox-package-image.py:686-720 | entries have canonical, pairwise distinct paths and canonical hard-link targets; only a directory can be the root |
| TarLanguage.MemberEntryExactly | tools/checks/verify-platform-sandbox-package-image.py:661-742 | a header and its records give an entry if and only if it is the declared one: path, link name, xattrs, kind and numbers |
| TarLanguage.ScannerAcceptsExactly | tools/checks/verify-platform-sandbox-package-image.py:578-764 | the scanner returns given entries if and only if the stream is tiled, every metadata header is an allowed PAX header directly before a member, every entry is the declared reading of its header and PAX records, and there are not too many and no path twice |
| TarWriter.ChecksumFitsSixDigits | tools/checks/verify-platform-sandbox-package-image.py:614-621 | the checksum of any block is at most 128776 and below 8 to the 6th |
| TarWriter.HeaderRoundTrip | tools/checks/verify-platform-sandbox-package-image.py:614-655 | a written header block, POSIX with its path split into prefix and name or old GNU, checksum included, reads back to the same header |
| TarRoundTrip.MemberRoundTrip | tools/checks/verify-platform-sandbox-package-image.py:661-742 | the raw header and PAX records written for an entry are interpreted as that entry |
| TarRoundTrip.TarRoundTrips | tools/checks/verify-platform-sandbox-package-image.py:578-764 | scanning a written archive returns exactly its entries, for every list of writable members with distinct paths, each in either header form |
| LayerEngine.Rootfs.RemoveTree | tools/checks/verify-platform-sandbox-package-image.py:822-826 | deletes the path and everything below it, whatever the order of the snapshot, and nothing else |
| LayerEngine.Rootfs.Sweep | tools/checks/verify-platform-sandbox-package-image.py:861-875 | applies the whiteouts in place, collects the other entries in order, and fails on an invalid or forbidden whiteout |
| LayerEngine.Rootfs.AddHardLink | tools/checks/verify-platform-sandbox-package-image.py:930-953 | binds the target object to a second path and changes its metadata as seen through every name, or refuses a missing, non-regular or privileged target |
| LayerEngine.Rootfs.AddNode | tools/checks/verify-platform-sandbox-package-image.py:955-980 | refreshes an existing directory object in place, or binds a new object after removing what was there |
| LayerEngine.Rootfs.ApplyLayer | tools/checks/verify-platform-sandbox-package-image.py:855-980 | the whole heap represents the image the specification computes, and the method fails exactly when that does |
| LayerInvariant.HeapInvariant | tools/checks/verify-platform-sandbox-package-image.py:855-980 | every accepted list of layers keeps: one object has one value, only unprivileged regular files have two names, nothing is below a non-directory |
| LayerInvariant.PackageEntryExtends | tools/checks/verify-platform-sandbox-package-image.py:878-920 | one accepted package entry changes nothing outside the package and whatever it adds or changes is inert |
| LayerInvariant.PackageLayersOnlyExtend | tools/checks/verify-platform-sandbox-package-image.py:855-980 | any number of accepted package layers keep every node outside the package subtree, object and metadata; new structural parents are plain root:root 0755 directories; added or changed nodes are files or directories without xattrs, SUID or SGID |
| LayerMeaning.SetIdIsTheFourthDigit | tools/checks/verify-platform-sandbox-package-image.py:835 | SUID or SGID is set exactly if the fourth octal digit of the mode is at least 2 modulo 8 |
| LayerMeaning.WhiteoutExactly | tools/checks/verify-platform-sandbox-package-image.py:829-846 | `d/.wh.n` is accepted exactly as an empty file without xattrs, SUID and SGID and for a name that is not empty, a dot, two dots or another `.wh.`; it hides exactly `d/n` and what is below, `.wh.n` hides `n`, and `d/.wh..wh..opq` exactly what is below d |
| LayerMeaning.WhiteoutsByName | tools/checks/verify-platform-sandbox-package-image.py:861-875 | the whiteouts of a layer by their names: when they are accepted, and that they erase exactly what they name |
| LayerMeaning.EntryAcceptedExactly | tools/checks/verify-platform-sandbox-package-image.py:922-953 | an entry of a runner layer is accepted exactly if whatever is bound above it is a directory and, for a hard link, the target is there and both are harmless |
| LayerMeaning.PackageEntryAcceptedExactly | tools/checks/verify-platform-sandbox-package-image.py:878-928 | an entry of a package layer is accepted exactly if it is a plain file or directory at or below `opt/insight/package`, or `opt` or `opt/insight` as the root:root 0755 directory it has to be and already is if present, and stands on directories |
| LayerMeaning.LayerByPath | tools/checks/verify-platform-sandbox-package-image.py:855-980 | what an accepted layer without hard links leaves at every path: the named metadata, nothing below a file, nothing where a whiteout erases, and the rest as it was |
| TreeRefinement.FindAfterPut | tools/checks/verify-platform-sandbox-package-image.py:955-980 | naming an inode in the tree changes the lookup of that path only |
| TreeRefinement.FindAfterUnlink | tools/checks/verify-platform-sandbox-package-image.py:822-826 | unlinking removes exactly the lookups at and below the path |
| TreeRefinement.FindAfterHollow | tools/checks/verify-platform-sandbox-package-image.py:867-871 | an opaque whiteout removes exactly the lookups strictly below the directory |
| TreeRefinement.PlaceOneSimulates | tools/checks/verify-platform-sandbox-package-image.py:876-980 | flat map and tree accept the same entry and agree afterwards, hard links included |
| TreeRefinement.FlatEngineRefinesTree | tools/checks/verify-platform-sandbox-package-image.py:855-980 | for every list of layers flat map and tree accept alike and agree on presence, metadata and sharing at every path |
| LayerOrder.SweepIsOneFilter | tools/checks/verify-platform-sandbox-package-image.py:829-875 | all whiteouts of a layer equal one filter of the lower image |
| LayerOrder.WhiteoutsMayStandAnywhere | tools/checks/verify-platform-sandbox-package-image.py:861-875 | moving or reordering whiteouts within a layer never changes the outcome, so they never hide entries of their own layer |
| LayerOrder.PlaceNodeByValue | tools/checks/verify-platform-sandbox-package-image.py:955-980 | under the heap invariant an entry that is not a hard link affects its own path, and a non-directory also the subtree, and no other path |
| LayerOrder.PlaceNodeSharing | tools/checks/verify-platform-sandbox-package-image.py:955-980 | such an entry shares its object with no other path and leaves all other sharing alone |
| LayerOrder.PlaceOneRespectsAlike | tools/checks/verify-platform-sandbox-package-image.py:876-980 | no entry, hard links included, can tell apart two rootfs with the same values and the same sharing |
| LayerOrder.EntriesSettle | tools/checks/verify-platform-sandbox-package-image.py:876-980 | accepted entries without hard links settle to an overlay, values and sharing, defined without their order |
| LayerReorder.HardLinkByValue | tools/checks/verify-platform-sandbox-package-image.py:930-953 | by value a hard link replaces one subtree and changes every name of its target, and no other path |
| LayerReorder.HardLinkSharing | tools/checks/verify-platform-sandbox-package-image.py:930-953 | it adds one name to the object of its target and leaves all other sharing alone |
| LayerReorder.PassingExactly | tools/checks/verify-platform-sandbox-package-image.py:930-980 | when both orders of a hard link and another entry are accepted, they give the same values and sharing if and only if the link does not name the path of the entry |
| LayerReorder.BothSidesOfALink | tools/checks/verify-platform-sandbox-package-image.py:930-980 | an input where it does: both orders are accepted and differ |
| LayerReorder.PlacedKinds | tools/checks/verify-platform-sandbox-package-image.py:876-980 | the kinds that accepted entries leave, hard links included, do not depend on their order |
| LayerReorder.NeighboursSwap | tools/checks/verify-platform-sandbox-package-image.py:876-980 | two neighbours that are not tied by a hard link may change places without being rejected, unless one stands on the other |
| LayerReorder.AcceptedOrdersAgree | tools/checks/verify-platform-sandbox-package-image.py:855-980 | two accepted orders of one layer, hard links included, give rootfs with the same values and sharing when hard links keep their order and entries stay on their side of the links that name them; whiteouts may stand anywhere |
| LayerReorder.LinkFreeOrdersAgree | tools/checks/verify-platform-sandbox-package-image.py:855-980 | all accepted orders of a layer without hard links give the same rootfs |
| PackageImage.VerifyPackageImage | tools/checks/verify-platform-sandbox-package-image.py:1119-1199 | accepts exactly the compositions of the specification (layer prefix and its blobs, runtime config and DiffIDs included), and the rootfs is the specified one |
| PackageImage.CheckRootfs | tools/checks/verify-platform-sandbox-package-image.py:1174-1199 | the final checks hold exactly when the launcher alone has the exact capability and nothing is SUID or SGID |
| PackageImage.AcceptedExactly | tools/checks/verify-platform-sandbox-package-image.py:1100-1200 | a composition is accepted exactly if the runtime config is equal, there are strictly more layers, descriptors and DiffIDs of the prefix are equal, every layer is stored where it must be, digests equal DiffIDs and every applied layer scans, no added layer is empty, the layers apply, and only the launcher, a regular file with the exact 20 bytes, is privileged |
| PackageImage.AcceptedCompositionIsInert | tools/checks/verify-platform-sandbox-package-image.py:1100-1200 | from layer bytes: the accepted rootfs extends the runner's only inside the package, the launcher is the runner's own node with the exact capability, no other path has one, and nothing outside was SUID or SGID |
| PackageImage.SharedObjectsAreHarmless | tools/checks/verify-platform-sandbox-package-image.py:930-953 | an object that an accepted rootfs binds to two paths is a regular file without xattrs, SUID or SGID |
| PackageImage.AcceptedCompositionIsATree | tools/checks/verify-platform-sandbox-package-image.py:1132-1172 | the accepted rootfs is the one the directory tree computes from the same layers |
| PackageAcceptance.ExtensionKeepsChecks | tools/checks/verify-platform-sandbox-package-image.py:1174-1199 | what only extends the package keeps the final checks |
| PackageAcceptance.PlainPackageIsAccepted | tools/checks/verify-platform-sandbox-package-image.py:1100-1200 | every package of plain files and directories, written as an archive on a runner that passes the final checks and has no package yet, is accepted |
| PackageAcceptance.SomethingIsAccepted | tools/checks/verify-platform-sandbox-package-image.py:1100-1200 | at one input: a launcher with the exact capability and an empty package directory |
| ProviderSafety.RunsKeepInv | tools/install/platform_helm.py:377-670 | the invariant of state file, Jobs, Pods and program point holds after every run of launches, steps, crashes and cluster actions |
| ProviderSafety.AtMostOneInitializer | tools/install/platform_helm.py:499-521 | over every run at most one initialiser create and at most one provider-start submission are issued |
| ProviderSafety.SavedStateAlwaysLoads | tools/install/platform_helm.py:268-335 | every saved state passes the check of the next process |
| ProviderSafety.LaunchedExactly | tools/install/platform_helm.py:268-335 | a process goes on exactly if none runs and intents, proofs, modes and the five stages of the initialisation cohere |
| ProviderSafety.ProofsAgree | tools/install/platform_helm.py:268-308 | all recorded proofs carry the digest of the prepared installation, and readiness implies a recorded provider proof and a complete initialisation |
| ProviderSafety.CompletionIsEvidence | tools/install/platform_helm.py:565-616 | a terminated or complete initialisation names the UID of a Pod that exited with code 0 |
| ProviderSafety.FinalizerOutlivesEvidence | tools/install/platform_helm.py:598-606 | a Pod is without its finalizer, or gone, only after its termination is durable |
| ProviderSafety.EvidenceIsNeverLost | tools/install/platform_helm.py:565-597 | at no point of any run does stopping meet a vanished or foreign Pod without recorded termination |
| ProviderSafety.PendingJobsKeepTheirName | tools/install/platform_helm.py:377-436 | a submitted prepare, provision or verify Job that is neither recorded nor seen failed and inactive by `resume` is the current Job of the state file |
| ProviderSafety.RestoreChangesNothing | tools/install/platform_helm.py:871-901 | restoring the pending operation leaves the state file as it is |
| ProviderSafety.ApplySaveKeepsInv | tools/install/platform_helm.py:377-390 | choosing phase and operation in `apply` keeps the invariant: no outstanding Job is renamed |
| ProviderSafety.JobIntentKeepsInv | tools/install/platform_helm.py:499-513 | a durable intent precedes the Job and never displaces an outstanding one |
| ProviderSafety.JobReturnKeepsInv | tools/install/platform_helm.py:618-670 | recording start and readiness proofs and discarding observations keeps the state loadable |
| ProviderSafety.StopWaitKeepsInv | tools/install/platform_helm.py:586-597 | termination is recorded only for the Pod of the recorded UID after a clean exit |
| ProviderSafety.EnvironmentKeepsInv | tools/install/platform_helm.py:340-342 | late, lost and failing cluster actions keep the invariant as long as finalizers are honoured and UIDs are new |
| ProviderEvidence.ProofsAreTrue | tools/install/platform_helm.py:426-563 | over every run in which nobody deletes a Job, every recorded proof is true of the cluster: its Job has that UID and succeeded with that digest, Pod and mode |
| ProviderEvidence.OneLastingJobAtATime | tools/install/platform_helm.py:862-869 | over every such run, a prepare, provision or verify Job that may have an active Pod is the current one of the state file |
| ProviderEvidence.ResumeExactly | tools/install/platform_helm.py:854-872 | `resume` goes on exactly if the current lasting Job is not there or cannot have an active Pod, and renames the operation exactly if it is there and failed |
| ProviderEvidence.StoppingRaisesExactly | tools/install/platform_helm.py:565-616 | at every point of every run stopping can go on, or wait, unless the container ended with another exit code than 0: then, and only then, it raises |
| ProviderEvidence.EveryEffectIsDue | tools/install/platform_helm.py:377-645 | at every point of every run a step saves or acts, not both; and what it requests, deletes or releases is due by the durable state: each Job by its phase, the one Pod on a first permission, deletion after readiness, release after recorded termination |
| ProviderEvidence.EveryRecordIsDue | tools/install/platform_helm.py:426-670 | when nobody deletes a Job, everything a step records is due: readiness only while the recorded Pod runs, completion only when the Pod is gone, UIDs only from the cluster, intents only for new Jobs and dropped only when ended |
| ProviderHistory.ServingIsObserved | tools/install/platform_helm.py:774-908 | a process of `up` or `resume` that is about to submit a provision or verify Job, or has finished, has since its launch recorded the intent of a serving observation whose Job then succeeded with the prepared digest |
| ProviderHistory.FinishedIsProven | tools/install/platform_helm.py:848-908 | a finished process has recorded a completion since its launch, and `up` and `resume` end in the serving phase |
| ProviderHistory.VerifyOnlyVerifies | tools/install/platform_helm.py:806-908 | a `verify` process records nothing about the provider and asks the cluster for nothing but a verify Job |
| ProviderDeadEnds.RunsKeepRecorded | tools/install/platform_helm.py:499-616 | over every run recorded UIDs are real ones, no Job is asked for twice, observations follow the initialisation, and what was seen of a stopped Pod stays true |
| ProviderDeadEnds.RunsStayDoomed | tools/install/platform_helm.py:499-804 | no run in which nobody deletes a Job leaves a dead end of the provider, and an installation in one never becomes ready |
| ProviderDeadEnds.RunsStayStranded | tools/install/platform_helm.py:426-437 | nor does one get past a provision or verify Job that succeeded with a foreign digest |
| ProviderRecovery.RecoveryExists | tools/install/platform_helm.py:499-908 | from every other state file and cluster a run exists that finishes, with failed Jobs replaced by `resume` and no Job deleted |
| ProviderRecovery.RecoverableExactly | tools/install/platform_helm.py:377-908 | after any run that ended in a crash, and when nobody deletes a Job, `up` and `resume` can finish if and only if nothing is lost, and `verify` on a ready installation if and only if its own result is not |
| ProviderRecovery.CrashBeforeRequestIsFinal | tools/install/platform_helm.py:499-645 | a crash between a durable intent and its request can never be recovered by `up` or `resume` |
| ProviderRecovery.StopsBeforeFirstRequest | tools/install/platform_helm.py:499-521 | a run that gets there before the first permission is asked for |
| ProviderRecovery.StopsBeforeObservation | tools/install/platform_helm.py:774-804 | a run that gets there before a read-only observation of a ready installation |
| HandOver.WaitCurrent | tools/install/provider_lifecycle.py:106-127 | follows the automaton from waiting to its end: an answer only after a look at the running container, a checked report and the same look; observations are bounded by the seconds left plus one; lateness is only declared after the deadline |
| HandOver.EnsureProvider | tools/install/provider_lifecycle.py:84-147 | terminates; its trace is a whole trace of the automaton and it returns the answer in which that ends, or nothing happens when the bound is invalid; at most ceil(timeout) + 2 observations; no early timeout |
| HandOver.EnvelopesExactly | tools/install/provider_lifecycle.py:36-48 | the accepted envelopes are exactly the objects of the four fields with version 1, the input digest, a lower-case SHA-256 identity digest that agrees with a known one, and a permitted mode or phase |
| HandOverAnswers.BothRunning | tools/install/provider_lifecycle.py:90-92 | every trace starts with a look at either container; if both run, and only then, it ends there without an answer; otherwise the owner is asked |
| HandOverAnswers.NothingWithoutPermission | tools/install/provider_lifecycle.py:93-104 | the question is the last event, and there is no answer, exactly if the reply is no usable permission in view of the two looks |
| HandOverAnswers.InitializerStartedExactly | tools/install/provider_lifecycle.py:129-133 | the initialiser is started exactly when `initialize_once` was answered and both containers were absent, as the next event |
| HandOverAnswers.ServerStartedExactly | tools/install/provider_lifecycle.py:143-146 | after the first look at the server behind the question it is started exactly if it does not run |
| HandOverAnswers.StoppedExactly | tools/install/provider_lifecycle.py:134-138 | the initialiser is stopped exactly after its confirmed report, at once, under the identity that was seen |
| HandOverAnswers.AnsweredExactly | tools/install/provider_lifecycle.py:106-147 | there is an answer exactly if the trace ends with a look at the running server, a checked report and the same look, and it is that report |
| HandOverAnswers.AnswerIsChecked | tools/install/provider_lifecycle.py:93-127 | the answer is a readiness envelope of the identity that the permission named |
| HandOverAnswers.AfterReport | tools/install/provider_lifecycle.py:113-123 | after a report the protocol ends without an answer exactly if the report is broken, a non-repeatable error or no envelope of the known identity; otherwise it is late, pauses or looks again |
| HandOverAnswers.AfterOthers | tools/install/provider_lifecycle.py:110-146 | lateness and a failed start or stop end the protocol without an answer; a pause is at most a second and is followed by a look unless it is late; a start or stop that does not fail is followed by a look at that container |
| HandOverAnswers.LookAfterAction | tools/install/provider_lifecycle.py:129-146 | the look after a start or a stop lets the protocol go on exactly if the started container runs, or the stopped one is gone or stopped under its identity |
| HandOverAnswers.ChangeEndsIt | tools/install/provider_lifecycle.py:110-126 | a container that was seen and left alone has to be the same at the next look: the protocol goes on, or answers, if and only if it is; only the first look at the server behind the question is free |
| HandOverAnswers.EndsForAReason | tools/install/provider_lifecycle.py:84-147 | every trace without an answer ends for a listed reason: both running, no usable permission, failure, lateness, a refusing report, or a look that gave something else than it had to |
| HandOverSafety.EveryTraceIsSafe | tools/install/provider_lifecycle.py:84-147 | every trace of the automaton is safe, and the monitor knows the identity, the last looks and the permission that each stage relies on |
| HandOverSafety.StartsAreCounted | tools/install/provider_lifecycle.py:129-147 | in every safe trace each container is started at most once |
| HandOverSafety.EveryStartWasDue | tools/install/provider_lifecycle.py:84-147 | in terms of events alone: every start is the only one of its container and follows looks at both containers since which nothing was done to them, both absent and `initialize_once` answered for the initialiser, neither running for the server |
| HandOverSafety.InitializerNeedsPermission | tools/install/provider_lifecycle.py:94-133 | the initialiser is started only if the owner answered `initialize_once`, never after an unknown outcome |
| HandOverSafety.IdentityIsKept | tools/install/provider_lifecycle.py:94-138 | once known, the identity digest never changes within a trace |
| HandOverSafety.NeverBoth | tools/install/provider_lifecycle.py:84-147 | if only this adapter starts containers, and they were not both running before, the two never run together |
| OwnerReply.OnlyClosedCodes | tools/install/provider_lifecycle.py:65-81 | an error code comes from the closed list and from exactly one line; an object comes only with exit code 0 and passes the envelope check |
| OwnerReply.ReplyExactly | tools/install/provider_lifecycle.py:65-81 | within the bounds, a non-zero exit is the error c exactly if one and only one line of stderr is `installation ` followed by a closed code, and that code is c; exit 0 is an object exactly if stdout decodes to that checked envelope; anything else fails |
| OwnerReply.DiagnosticReadsBack | tools/install/provider_lifecycle.py:69-75 | for every closed code c the diagnostic `installation c` on a line of its own is the error c |
| OwnerReply.TruncationIsInvisible | tools/install/native_runtime.py:259-260 | reading the kept prefix of a diagnostic gives the reply that the whole diagnostic would give |
| ProcessGroup.Child.Feed | tools/install/native_runtime.py:245-266 | the log grows by a prefix of the block, stays within its bound and is written only while open; `error` is the first 65537 bytes of stderr; captured output is everything read, and it raises exactly when that would exceed 1 MiB |
| ProcessGroup.ProcessGroup.Pump | tools/install/native_runtime.py:245-267 | for any ready streams every child gains exactly its own blocks, in order, and every bound holds; it raises for an interrupt, an exited required child or an output above the bound, and only then |
| ProcessGroup.ProcessGroup.Run | tools/install/native_runtime.py:269-283 | when it returns, both pipes of the child are at their end and the captured output is complete; it raises only for what one of its pumps raised, for a failed start, or after all its rounds |
| ProcessGroup.ProcessGroup.Start | tools/install/native_runtime.py:220-243 | checks first, and an interrupt is always reported; registers one fresh child with both pipes, or leaves the group as it was |
| Publish.RunsKeepInv | tools/install/public_trust.py:100-140 | the directory invariant holds at every crash point of every run |
| Publish.DestinationIsNeverPartial | tools/install/public_trust.py:100-140 | the destination is absent, foreign, or holds the full bytes of a publisher |
| Publish.DoneMeansPublished | tools/install/public_trust.py:100-140 | in every run a publication that returns has published exactly its own bytes as a private regular file with one link, and they stay so whatever follows |
| Publish.DestinationIsNeverReplaced | tools/install/public_trust.py:113-135 | an existing destination keeps its inode and bytes for ever |
| Publish.ReplayConfirmsExactly | tools/install/public_trust.py:84-97 | a replay confirms exactly a private, singly linked, bounded, non-empty destination with equal bytes |
| Publish.ReplayAfterDone | tools/install/public_trust.py:84-140 | after a returned publication and anything since, a further one returns if and only if its bytes are equal, not empty and within its bound |
| Publish.ReplayIsRejectedExactly | tools/install/public_trust.py:84-140 | a first publication always returns; its replay is rejected if and only if the bytes are empty or above the bound |
| Publish.ReadPrivateExactly | tools/install/public_trust.py:84-97 | a name is readable exactly if it is a regular file of the owner with mode 0600 and one link, not empty and within the bound |
| Publish.NothingIsLeftBehind | tools/install/public_trust.py:113-140 | a publisher that is not killed, whether it returns or raises, leaves no staged file of its own behind |
| Publish.EmptyFileIsNeverConfirmed | tools/install/public_trust.py:84-140 | at that input: the empty file is published and its replay rejected |
| Publish.CanReturnExactly | tools/install/public_trust.py:84-140 | after any run that left no publisher, a publication can still return if and only if the name is free or the file there is readable with the same bytes |
| Publish.TwoLinksAreFinal | tools/install/public_trust.py:125-130 | a run that is killed between link and unlink; after it no publication of anything can return |
| Publish.NothingIsEverConfirmed | tools/install/public_trust.py:125-130 | after a kill between link and unlink no publication ever succeeds and the directory never changes |
| SqlSplit.FindClose | tools/checks/check-platform-postgres-schema.py:102-119 | finds the first position that closes the opening parenthesis outside string literals, or none exists |
| SqlSplit.ExtractTableBodies | tools/checks/check-platform-postgres-schema.py:96-122 | every body is the balanced, quote-closed text up to its matching parenthesis; fails exactly on an unclosed body or a repeated name |
| SqlSplit.BodyIsUnique | tools/checks/check-platform-postgres-schema.py:102-121 | at one position there is only one such body |
| SqlSplit.TopLevelSegments | tools/checks/check-platform-postgres-schema.py:125-148 | the look-ahead loop returns the trimmed non-blank pieces between top-level commas of the plain toggling reading |
| SqlSplit.StripExactly | tools/checks/check-platform-postgres-schema.py:125-148 | trimming takes exactly the white space at both ends |
| SqlSplit.SegmentsExactly | tools/checks/check-platform-postgres-schema.py:125-148 | the segments are what the pieces trim to, in order, without the blank ones |
| SqlSplit.PiecesJoin | tools/checks/check-platform-postgres-schema.py:125-148 | the pieces joined by commas give the body back |
| SqlSplit.PiecesAreClosed | tools/checks/check-platform-postgres-schema.py:125-148 | every piece but the last is closed, the last is as open as the text, and none has a top-level comma |
| SqlSplit.SegmentsRoundTrip | tools/checks/check-platform-postgres-schema.py:125-148 | splitting the join of closed, trimmed, non-blank items returns those items |

## Left out

- Gzip, the OCI layout, manifest and config documents: a layer enters as a descriptor, a DiffID and a tar stream, the runtime config as its canonical text, SHA-256 as a function parameter, and the verification of a stored blob as one truth value.
- The 2 GiB limit on uncompressed layers and chunked reads: streams are whole byte strings.
- `float` on PAX timestamps is a parameter of the scanner, and the interpreter's limit on the number of digits `int` converts is not modelled.
- Error messages: every failure of a pure function is one value.
- ProviderMachine: the installer is a state machine over values rather than a class with methods, because a method could not be interrupted between its effects.
- ProviderMachine: namespace and PVC identities, plan validation, Pod templates, the comparison of Deployment chains around a serving observation, rollouts and deadlines; a deadline that expires is a crash at that step.
- ProviderRecovery.RecoverableExactly: finishing is possible in the sense of the model, with a cluster that cooperates and deadlines that do not expire; runs in which somebody else deletes a Job are left out of it.
- ProviderMachine: identifiers are numbers, so the regular expressions on names, nonces and digests hold by construction.
- Session and public-trust delivery Pods: they repeat the durable-intent pattern.
- HandOver.EnsureProvider: callbacks are arbitrary; what the Compose and native adapters guarantee about them is not part of this model.
- ProcessGroup.ProcessGroup.Run: time is a number of pump rounds, and signalling and reaping in `close` are not modelled.
- Publish: one directory entry per name, durable links; the directory checks and the JSON proof formats are not modelled.
- SqlSplit.ExtractTableBodies: the CREATE TABLE pattern matches are an input, and `table_columns` (the first word of each segment) is left out.
