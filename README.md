# Chafftafarian chaff generator — a Dafny model of its core

The chaff generator fills a directory with plausible decoy files. It plans how many
files to make and their types, sizes, languages and names. It renders and encodes
each file: as base64 in three layouts, as Fernet ciphertext behind a salt, as a
password-protected zip, or left plain. It then links the files into a reference
graph, rewrites emails, text files and CSV files so they mention what they
reference, and hides some passwords in text files as hints. A separate decoder
script undoes the encodings.

This project models that core in Dafny:

| module | source | what it holds |
|---|---|---|
| `Encoding` | file_linking.py | `EncodingMethod`, the weighted method choice, the password generator, `encode_file` |
| `Refs`, `Passes`, `Groups` | file_linking.py | the reference records and the nine `_create_*` passes, as functions over a tape of random draws |
| `Rewrite` | file_linking.py | the e-mail regenerator, the document and spreadsheet rewriters, the hint distributor |
| `Network` | file_linking.py | `create_file_network` as a function: the encoding loop, the passes and the rewrites |
| `Linking` | file_linking.py | `FileLinkingManager` as a class whose methods append to its reference list and rewrite its file list, each proved equal to the functions above |
| `Settings` | settings.py | size and list parsing, the warnings, the fill-drive arithmetic, the planning loop, the summary |
| `MainHelpers` | main.py | file naming, the no-overwrite loop, file content, image content, resizing a file |
| `Phrases` | phrase_generator.py | data-file classification, language detection, template expansion, document text |
| `Templates` | templates.py | the template factory, the locale map, TXT padding, the CSV row cap, thread subjects |
| `Decoder` | tests/decode_chaff.py | suffix detection, original names, base64 decoding, the salt split |
| `Oracle` | (Python's `random`) | `randint`, `random() < p`, `choice`, `choices`, `sample` and `shuffle` over an explicit tape of draws; a `Random` class whose tape the imperative code consumes |
| `Base64`, `Utf8` | (Python's `base64`, `str.encode`, `bytes.decode`) | RFC 4648 sections 4 and 5 encodings, CPython's lenient decoder, and UTF-8 with `errors='ignore'` |
| `Common` | — | `Option`, `Result`, and Python's string, list and dict operations |

Every random draw is read from a `Tape`, a sequence of naturals. A draw reduces
its value into the range it needs. The functions return the rest of the tape, and
the imperative methods advance a `Random` object's tape. Results therefore say
exactly which draws they consume. Key derivation, Fernet encryption, the zip
writer, Faker's values and the rendered template bytes are parameters, so
everything built around them is modelled and they are not.

Where the code raises, the model returns an error value. Examples are
`randint(2, 1)` in the spreadsheet pass, an unknown file type in the template
factory, a sender without `@`, and division by zero in TXT padding and in the
fill-drive arithmetic.

## Model

| member | source | states |
|---|---|---|
| Encoding.ValueInjective | file_linking.py:29-37 | distinct encoding methods have distinct `.value` strings, so the values can key the encoding summary |
| Encoding.WeightsTotal | file_linking.py:318-332 | every weight table of `_choose_encoding_method` sums to 100 |
| Encoding.ChooseEncodingMethod | file_linking.py:301-335 | pdf, jpg, png and eml are never encoded and draw nothing; every other type takes one draw and gets one of the seven methods |
| Encoding.ChoosableIffWeighted | file_linking.py:318-335 | for a weighted type, a method can be chosen exactly when its weight for that type is positive |
| Encoding.ChosenIsWeighted | file_linking.py:318-335 | a chosen method always has positive weight for the type |
| Encoding.WeightedIsChosen | file_linking.py:318-335 | every method with positive weight is chosen by some draw |
| Encoding.DefaultTypesAvoidZip | file_linking.py:330-332 | a type outside docx, xlsx, csv and txt never gets a zip method |
| Encoding.MediumPassword | file_linking.py:76-84 | the medium password is never empty, and building it consumes exactly five draws (four `randint`s and the choice) |
| Encoding.StrongPassword | file_linking.py:85-88 | the strong password is 16 characters, each from the letters, digits and `!@#$%^&*` |
| Encoding.ChosenPassword | file_linking.py:129-169 | a supplied non-empty password is used as is and draws nothing; a missing or empty one is replaced by a non-empty generated one |
| Encoding.ZipEncryptedEntries | file_linking.py:171-178 | ZIP_ENCRYPTED writes two or three entries, the first named document.dat and the last the fixed checksum |
| Encoding.EncodePassword | file_linking.py:109-189 | exactly the Fernet and zip methods record a password; it is never empty; it is the supplied one when that is non-empty; the metadata keys are distinct |
| Encoding.EncodeFile | file_linking.py:109-189 | a method without a password draws nothing, and `none` leaves the content as it was; EncodePassword, FernetLayout and TextMethodsInvertible state the rest |
| Encoding.FernetLayout | file_linking.py:129-151 | Fernet output is the 16-byte salt followed by the token under the key derived from password and salt, and the metadata salt is that salt in base64 |
| Encoding.ZipEncryptedSplit | file_linking.py:167-183 | content over 100 bytes is split at `n // 2` into two entries whose concatenation is the content; shorter content is one entry |
| Encoding.ZipPasswordArchive | file_linking.py:153-165 | ZIP_PASSWORD writes the whole content as data.bin, LZMA-compressed under the password |
| Encoding.TextMethodsInvertible | file_linking.py:113-127 | standard, multiline (after removing newlines) and URL-safe base64 each decode back to the content, and NONE keeps it |
| Base64.EncodeNoNewline | file_linking.py:113-127 | no base64 encoding contains a newline |
| Base64.WrapUnwrap | file_linking.py:117-123 | removing every newline from the multiline layout gives back the single-line encoding |
| Base64.WrapLines | file_linking.py:119-121 | every line of the multiline layout holds between 1 and 64 characters |
| Base64.DecodeEncode | file_linking.py:113-115 | `b64decode(b64encode(x)) == x` |
| Base64.Encode | file_linking.py:113-115 | four characters for every started group of three bytes (DecodeEncode is its inverse) |
| Base64.Decode | tests/decode_chaff.py:79-81 | whatever decodes is at most three bytes per four characters |
| Base64.UrlSafeDecodeEncode | file_linking.py:125-127 | `urlsafe_b64decode(urlsafe_b64encode(x)) == x` |
| Base64.UrlSafeDecodeStandard | tests/decode_chaff.py:83-85 | `urlsafe_b64decode` also decodes the standard alphabet back |
| Oracle.DrawInt | file_linking.py:343 | `randint(lo, hi)` on a non-empty range returns a value in it and takes one draw |
| Oracle.DrawWeighted | file_linking.py:334-335 | `random.choices(..., weights)[0]` returns a position whose weight is positive |
| Oracle.DrawWeightedBefore | file_linking.py:334-335 | each positive-weight position is returned for the draw equal to the weight before it |
| Oracle.DrawSample | file_linking.py:343-344 | `random.sample` returns k distinct positions of the population, by the pool method up to `setsize` and by the set method above it |
| Oracle.Redraw | file_linking.py:344 | a pick of the set method is a position below n that was not picked before |
| Oracle.SampleSet | file_linking.py:344 | the set method picks k more positions below n, distinct from each other and from the earlier picks |
| Oracle.SampleSetExact | file_linking.py:344 | draws that are already distinct are picked as they come, one draw per pick |
| Oracle.DrawSampleLarge | file_linking.py:343-344 | above `setsize`, k distinct draws below n are the sample itself and nothing more is drawn |
| Oracle.DrawSampleRedraws | file_linking.py:343-344 | above `setsize`, a draw that repeats an earlier pick is thrown away and the next one is taken |
| Oracle.DrawSampleSmall | file_linking.py:343-344 | up to `setsize`, the first pick is the position of the first draw in the whole population |
| Oracle.Log4Ceil | file_linking.py:344 | `ceil(log(m, 4))` as used in `setsize`: the least exponent whose power of four reaches m |
| Oracle.LeastFree | file_linking.py:344 | the least position not yet picked |
| Oracle.DrawShuffle | file_linking.py:788-789 | `random.shuffle` returns a permutation of its input |
| Oracle.Random.Shuffle | file_linking.py:788-789 | the in-place shuffle leaves the list the shuffle function gives and consumes its draws |
| Refs.Where | file_linking.py:208-211 | a file group holds exactly the plans whose type is in the group's list |
| Refs.Others | file_linking.py:400 | the other files are exactly those with another name |
| Refs.DrawTargets | file_linking.py:343-344 | a sample holds between the lower bound and min(cap, pool size) files of the pool, none twice when the pool's names are distinct |
| Refs.Labelled | file_linking.py:346-365 | one reference per target, from the source, to the target's name, of the given type |
| Refs.LabelledContexts | file_linking.py:346-365 | each reference's context is one of the contexts offered for its target |
| Refs.LabelledTargets | file_linking.py:346-365 | the targets of labelled references are the sampled names, in order |
| Refs.ChosenDistinct | file_linking.py:344 | sampled plans have distinct names when the pool's names are distinct |
| Refs.From | file_linking.py:817-819 | the references of a file are exactly those whose source is its name |
| Refs.OfType | file_linking.py:592-595 | the references of a type are exactly those with that type |
| Refs.FromAppend | file_linking.py:817-819 | filtering a concatenation filters each part and keeps them in order, so the references of a file come in creation order |
| Refs.OfTypeAppend | file_linking.py:592-595 | the same for the references of one type |
| Refs.FromCounts | file_linking.py:817-819 | each reference of the file appears as many times as it was created |
| Refs.OfTypeCounts | file_linking.py:592-595 | each reference of the type appears as many times as it was created |
| Passes.AttachmentContextNames | file_linking.py:348-357 | every attachment context names the attached file |
| Passes.DocumentContextNames | file_linking.py:406-413 | every document-reference context names the referenced document |
| Passes.SheetContextNames | file_linking.py:433-440 | every spreadsheet context names the source file |
| Passes.AttachStepTarget | file_linking.py:359-375 | one attachment adds exactly one attachment edge, to that attachment |
| Passes.AttachTargets | file_linking.py:346-375 | an email's attachment edges list its sampled attachments, in order |
| Passes.AttachMirrors | file_linking.py:367-375 | every edge of an email is an attachment edge, or an email_source edge right after the attachment it mirrors with source and target swapped |
| Passes.EmailFanOut | file_linking.py:340-344 | an email gets 1 to min(6, n) attachments from the pool, distinct when the names are, and none without a pool |
| Passes.EmailEdges | file_linking.py:337-375 | with no other files there is nothing to attach and no draw; EmailFanOut states the fan-out |
| Passes.EmbedFanOut | file_linking.py:380-393 | a document embeds at most min(3, n) distinct images of the pool, each with the fixed context, after one chance draw |
| Passes.DocFanOut | file_linking.py:398-421 | a document gets 1 to min(3, others) distinct other documents and never references itself |
| Passes.DocEdgesNoSelf | file_linking.py:395-421 | no document-reference edge of the pass is a self-reference |
| Passes.SheetEdgesFail | file_linking.py:426-430 | the spreadsheet pass fails, as `randint(2, 1)` does, exactly when there is a spreadsheet and exactly one other file |
| Passes.SheetEdges | file_linking.py:423-448 | with no other files the pass adds nothing; when it succeeds every edge is a `data_source` from one of the spreadsheets |
| Passes.SheetFanOut | file_linking.py:426-448 | otherwise each spreadsheet gets 2 to min(4, n) distinct data_source edges |
| Passes.ProtectedFiles | file_linking.py:528-529 | the protected files are exactly the encoded files with a non-empty password whose plan is in the list |
| Passes.Containers | file_linking.py:535-537 | a container has another name and type eml, txt or docx |
| Passes.PasswordEdgeShape | file_linking.py:531-547 | a password edge points at the protected file from a different eml, txt or docx file, and its context contains the password |
| Passes.PasswordEdges | file_linking.py:524-547 | at most one edge per protected file, each of type `password` |
| Passes.PickOneShape | file_linking.py:549-575 | the backup and data passes add one edge per source into the pool, none when the pool is empty |
| Passes.BackupCount | file_linking.py:552-553 | the backup pass adds `len(documents) // 3` edges when there is a spreadsheet |
| Passes.DataCount | file_linking.py:566-567 | the data pass adds `len(spreadsheets) // 2` edges when there is a document |
| Groups.AddMemberKeeps | file_linking.py:461-463 | adding a member to a group keeps the group keys distinct |
| Groups.AddMemberFinds | file_linking.py:461-463 | the added member is found under its key, and earlier members stay |
| Groups.AssignProjects | file_linking.py:458-463 | project groups have distinct names, each one of the eight, and hold only files of the list |
| Groups.ProjectEdgesSnoc | file_linking.py:466-467 | projects are linked in insertion order, and only those with more than one file |
| Groups.ProjectFileFanOut | file_linking.py:468-482 | a file of a project references 1 to min(2, others) other files of the project |
| Groups.ProjectEdgesWithinGroups | file_linking.py:466-482 | every project edge links two files of one project |
| Groups.ProjectReferencesSound | file_linking.py:450-482 | no project edge is a self-reference, and both ends are files of the list |
| Groups.ProjectReferences | file_linking.py:450-482 | no files, no edges and no draw |
| Groups.VersionBase | file_linking.py:491-495 | the version base holds no dot |
| Groups.GroupByBase | file_linking.py:488-499 | the version groups have distinct bases, and each member has its group's base |
| Groups.GroupByBaseFinds | file_linking.py:488-499 | every file is filed under its own version base |
| Groups.VersionEdgesSnoc | file_linking.py:502-503 | version groups are linked in insertion order, and only those with more than one file |
| Groups.VersionFileLinks | file_linking.py:504-522 | a file of a version group links to every member with another name |
| Groups.VersionPairsLinked | file_linking.py:484-522 | two files with different names and the same base get an edge each way |
| Groups.VersionReferencesSound | file_linking.py:484-522 | the converse: every version edge joins two files of the list that have different names and the same base |
| Groups.VersionEdgesWithinGroups | file_linking.py:501-522 | every version edge links two different members of one group |
| Groups.VersionGroupSound | file_linking.py:504-522 | the files of a group link only to other members of it |
| Groups.VersionFileSound | file_linking.py:506-522 | one file links only to members with another name |
| Groups.VersionReferences | file_linking.py:484-522 | no files, no edges and no draw |
| Rewrite.Describe | file_linking.py:634-667 | one listing line per attachment, each naming it |
| Rewrite.SecurityNotes | file_linking.py:671-675 | every password reference's context appears as a Security Notes line |
| Rewrite.GenerateEmail | file_linking.py:600-727 | regenerating fails exactly when the sender has no `@`, where `sender.split('@')[1]` raises |
| Rewrite.EmailAttachmentCount | file_linking.py:717 | the X-Attachments header gives the number of attachment references |
| Rewrite.EmailContentType | file_linking.py:706-714 | the message is multipart/mixed exactly when it has attachments, text/plain otherwise |
| Rewrite.EmailMessageId | file_linking.py:712 | the Message-ID is the uuid at the sender's domain |
| Rewrite.EmailListsAttachments | file_linking.py:630-667 | every attachment with a recognised suffix is listed by name |
| Rewrite.EmailListsPasswords | file_linking.py:671-675 | every password reference from the email is spelled out |
| Rewrite.UpdatedEmail | file_linking.py:580-598 | an email is regenerated only when it has references, and fails only for a sender without `@`; plan, method and password are kept |
| Rewrite.UpdateEmails | file_linking.py:577-598 | the loop keeps the number, plans and methods of the files |
| Rewrite.UpdateEmailsSnoc | file_linking.py:580-598 | the emails are regenerated in list order, each with its own fakes and the tape the earlier ones left |
| Rewrite.UpdateEmailsFailure | file_linking.py:577-598 | a failure at any email is a failure of the whole rewrite |
| Rewrite.UpdatedEmailMentions | file_linking.py:593-598 | a rewritten email lists every password reference from it |
| Rewrite.UpdatedDocument | file_linking.py:732-751 | only a txt file with references changes; plan, method and password are kept |
| Rewrite.UpdateDocuments | file_linking.py:729-751 | the loop keeps the number, plans and methods of the files |
| Rewrite.ContextLinesContain | file_linking.py:740-742 | every reference's context is a `- context` line of the block |
| Rewrite.DocumentGainsBlock | file_linking.py:745-749 | a txt file holding UTF-8 text keeps that text followed by the block, which lists every reference from it |
| Rewrite.DocumentDropsInvalidByte | file_linking.py:746-751 | a byte that starts no UTF-8 sequence is silently dropped, because the decode ignores errors and the `except` never fires |
| Rewrite.BlockContains | file_linking.py:740-748 | text followed by the reference block holds the line of each of the block's references |
| Rewrite.CommentLines | file_linking.py:769-772 | the comment lines are the title, one `# context` per reference, then an empty line |
| Rewrite.UpdatedSheet | file_linking.py:756-779 | only a csv file with references changes; plan, method and password are kept |
| Rewrite.UpdateSheets | file_linking.py:753-779 | the loop keeps the number, plans and methods of the files |
| Rewrite.SheetGainsComments | file_linking.py:764-777 | the rewritten csv is the comment block joined before the whole original text |
| Rewrite.SheetLinesKept | file_linking.py:764-777 | read back by lines, it is the comment lines then the original lines unchanged, when no context holds a newline |
| Rewrite.HintText | file_linking.py:796-804 | the five hint formats; whichever is drawn, it spells out the password |
| Rewrite.TextPositions | file_linking.py:784-785 | the text files are exactly the txt and docx files, in order |
| Rewrite.WithHint | file_linking.py:806-815 | adding a hint keeps plan, method and password, and a file that is not txt (a docx carrier) comes back unchanged |
| Rewrite.PlaceHintsStep | file_linking.py:791-811 | the n-th pair is hinted in the n-th text file, in the format drawn next |
| Rewrite.PlaceHints | file_linking.py:791-811 | the hinting loop keeps the file count, and every plan and method |
| Rewrite.HintUntouched | file_linking.py:791-815 | a file that is not among the first n carriers, or that is a carrier but not a txt file, is unchanged |
| Rewrite.HintHeld | file_linking.py:807-811 | the i-th carrier, when it is a txt file, spells out the i-th password |
| Rewrite.WithHintHolds | file_linking.py:807-811 | a txt file read back after its hint holds everything the hint holds |
| Rewrite.DistributeHints | file_linking.py:781-815 | hint distribution keeps the number, plans and methods of the files |
| Rewrite.DistributeHintsUnfold | file_linking.py:788-791 | the shuffle comes first, then `min(pairs, len(text_files) // 2)` hints |
| Rewrite.DistributeHintsSound | file_linking.py:781-815 | only the txt files among the first min(pairs, len(text_files)//2) carriers change (no other file, and no docx carrier), and the i-th shuffled password is spelled out in the i-th text file when that is a txt file |
| Network.TemplateTargets | file_linking.py:230-255 | a template is told about at most 4 images and 5 attachments from the right groups, and about nothing unless it is pdf, docx or eml |
| Network.EncodePlan | file_linking.py:223-270 | encoding a plan fails exactly on an unsupported type; otherwise the record keeps the plan, has a password exactly for a protected method, and has no key |
| Network.EncodeFileNoKey | file_linking.py:268 | no method reports a key |
| Network.Record | file_linking.py:272-278 | recording appends the file and leaves the references and keys |
| Network.EncodePlans | file_linking.py:223-278 | the encoding loop fails exactly when some type is unsupported, and otherwise adds one file per plan |
| Network.EncodePlansSnoc | file_linking.py:223-278 | the plans are encoded in order, each recorded before the next is encoded |
| Network.EncodedPlan | file_linking.py:223-272 | the i-th new file is the i-th plan's |
| Network.EncodedPrefix | file_linking.py:272 | the files held before stay in front |
| Network.EncodedKeys | file_linking.py:277-278 | the key table is unchanged |
| Network.RecordPassword | file_linking.py:275-276 | recording stores a non-empty password under the file's name and changes no other entry |
| Network.EncodedPasswordsDistinct | file_linking.py:275-276 | the password table never holds a name twice |
| Network.EncodedPasswords | file_linking.py:223-278 | with distinct names, the password stored under a plan's name is its file's password when it has one |
| Network.EncodedPasswordsElsewhere | file_linking.py:275-276 | a name that no plan has keeps its stored password |
| Network.LinksToSheets | file_linking.py:281-284 | the first four passes fail exactly when there is a spreadsheet and exactly one document or image |
| Network.Links | file_linking.py:281-289 | the nine passes fail only in that case, keep files and passwords, and only append references |
| Network.Rewrites | file_linking.py:292-297 | the rewrites keep references, passwords, the number of files, and each file's plan and method |
| Network.NetworkFiles | file_linking.py:204-299 | a built network keeps the earlier references in front and adds one file per plan, in order |
| Network.NetworkErrors | file_linking.py:204-299 | the only failures are an unsupported type, the spreadsheet pass's empty range, or a sender without `@`; the first two always fail |
| Network.CreateNetwork | file_linking.py:204-299 | an unsupported type fails the whole call, and a network that is built has one file per plan added; NetworkFiles and NetworkErrors state the rest |
| Linking.FileLinkingManager.GetFileReferencesForFile | file_linking.py:817-819 | exactly the stored references whose source is the file |
| Linking.PickTargets | file_linking.py:343-344 | the in-place sample draws what the sampling function gives |
| Linking.FileLinkingManager.AddLabelled | file_linking.py:346-365 | appends the labelled references and nothing else changes |
| Linking.FileLinkingManager.CreateEmailReferences | file_linking.py:337-375 | appends exactly the email pass's edges |
| Linking.FileLinkingManager.CreateEmbeddedReferences | file_linking.py:377-393 | appends exactly the embedding pass's edges |
| Linking.FileLinkingManager.CreateDocumentReferences | file_linking.py:395-421 | appends exactly the document pass's edges |
| Linking.FileLinkingManager.CreateSpreadsheetReferences | file_linking.py:423-448 | appends the spreadsheet pass's edges, or fails as `randint(2, 1)` does |
| Linking.FileLinkingManager.CreatePasswordReferences | file_linking.py:524-547 | appends exactly the password pass's edges over the protected files |
| Linking.FileLinkingManager.CreateBackupReferences | file_linking.py:549-561 | appends exactly the backup pass's edges |
| Linking.FileLinkingManager.CreateDataReferences | file_linking.py:563-575 | appends exactly the data pass's edges |
| Linking.FileLinkingManager.CreateProjectReferences | file_linking.py:450-482 | appends exactly the project pass's edges |
| Linking.FileLinkingManager.CreateVersionReferences | file_linking.py:484-522 | appends exactly the version pass's edges |
| Linking.FileLinkingManager.UpdateEmailFiles | file_linking.py:577-598 | the files become the regenerated emails, or the call fails as the regeneration does |
| Linking.FileLinkingManager.UpdateDocumentFiles | file_linking.py:729-751 | the files become the rewritten documents |
| Linking.FileLinkingManager.UpdateSpreadsheetFiles | file_linking.py:753-779 | the files become the rewritten spreadsheets |
| Linking.FileLinkingManager.DistributePasswordHints | file_linking.py:781-815 | the files become the hinted files, and references and passwords stay |
| Linking.FileLinkingManager.EncodeFiles | file_linking.py:223-278 | the encoding loop fails exactly on an unsupported type, and otherwise leaves the state the encoding function gives |
| Linking.FileLinkingManager.GetEncodingSummary | file_linking.py:821-826 | one count per method value, each the number of files with that method, summing to the number of files |
| Linking.FileLinkingManager.CreateReferencesToSheets | file_linking.py:281-284 | the first four passes append what the function gives, or fail as it does |
| Linking.FileLinkingManager.CreateReferencesAfterSheets | file_linking.py:285-289 | the last five passes append what the function gives |
| Linking.FileLinkingManager.CreateReferences | file_linking.py:281-289 | the nine passes leave the state the function gives, or fail as it does |
| Linking.FileLinkingManager.UpdateContents | file_linking.py:292-297 | the rewrites leave the state the function gives, or fail as it does |
| Linking.FileLinkingManager.CreateFileNetwork | file_linking.py:204-299 | the whole call leaves the network the function gives and returns its files |
| Settings.ParseSizeWithUnit | settings.py:41-50 | digits followed by KB, MB or GB in any case give the number times 1024, 1024² or 1024³ |
| Settings.ParseSizeBytes | settings.py:51-53 | digits without a unit give that many bytes |
| Settings.ParseSize | settings.py:41-53 | a blank string is no size, and a size written with a unit is a whole number of KB; the lemmas above give the values |
| Settings.SizeOf | settings.py:44-53 | the same for the stripped, upper-case string: the unit is read from the last two characters |
| Settings.StrippedItems | settings.py:57 | the kept items are non-empty and stripped, and there are no more of them than pieces |
| Settings.StrippedItemsComplete | settings.py:57 | every piece that is not blank is kept in stripped form |
| Settings.StrippedItemsSound | settings.py:57 | nothing is kept but the stripped pieces |
| Settings.StrippedItemsAppend | settings.py:57 | the items of a concatenation are the items of each part in order, so the pieces keep their order |
| Settings.ParseList | settings.py:55-57 | every parsed item is non-empty and stripped |
| Settings.ParseListKeeps | settings.py:55-57 | each comma-separated piece that is not blank is in the list, stripped; every item is such a piece and holds no comma |
| Settings.ParseListPieces | settings.py:55-57 | pieces joined by commas parse to their stripped, non-blank forms in order, whatever spaces surround them and however many are blank |
| Settings.ParseListJoin | settings.py:55-57 | parsing plain items joined with commas gives the items back |
| Settings.ValidateSettings | settings.py:92-115 | each of the four warnings is present exactly when its condition holds |
| Settings.FillDriveParameters | settings.py:152-180 | (0, 0) without usable space; a division-by-zero error exactly when the average target is 0; otherwise a count within the count range and an average size within the size range |
| Settings.FillDriveCount | settings.py:164-169 | the count is the estimate clamped into the count range |
| Settings.BaseNames | settings.py:250-260 | every language has at least five base names, with English as the fallback |
| Settings.GenerateFilename | settings.py:247-271 | a base name, an optional `_` and stamp, one of the seven suffixes, then "." and the type |
| Settings.ShareOutStep | settings.py:209-227 | every fill-drive size draw leaves a remainder that the remaining files can still fit |
| Settings.NextPlan | settings.py:198-241 | one plan of the loop is well formed, within the size range, and keeps the remaining space shareable |
| Settings.PlanFiles | settings.py:194-245 | exactly `file_count` plans, sizes within range, and in fill-drive mode sizes that add up to the target total |
| Settings.GenerateFilePlan | settings.py:182-245 | the count lies in the configured range (or is the fill-drive count), an empty count range raises, and sizes lie within range |
| Settings.TotalSizeSnoc | settings.py:243 | one more plan adds its size to the total |
| Settings.CountPlans | settings.py:278-285 | the total size and the per-type and per-language tallies |
| Settings.GetGenerationSummary | settings.py:273-295 | totals, counts per type and language that each sum to the number of plans, and an average only when there are plans |
| MainHelpers.GetActualFilename | main.py:24-30 | the name is always the plan's own file name |
| MainHelpers.LastIndex | main.py:43 | the position of the last dot, if any |
| MainHelpers.Candidate | main.py:43-47 | the counter's decimal digits go after `_` before the last extension, or at the end of a name without one |
| MainHelpers.AttemptInjective | main.py:39-49 | different attempts give different names, so no name is tried twice |
| MainHelpers.FreeName | main.py:39-49 | the first free attempt, after every earlier attempt was taken |
| MainHelpers.TargetDirectory.CreateLinkedFile | main.py:33-59 | writes the content under a name not taken before and overwrites no existing file |
| MainHelpers.TargetDirectory.AdjustFileSize | main.py:143-165 | only the named file changes, to its adjusted bytes; a missing file changes nothing |
| MainHelpers.TextPadding | main.py:156-158 | text padding has exactly the length asked for: a newline, then spaces |
| MainHelpers.Adjusted | main.py:143-162 | padded or truncated to exactly the target; zero bytes for jpg and a newline then spaces otherwise; the original bytes stay in front |
| MainHelpers.AdjustedIdempotent | main.py:143-162 | adjusting twice to the same size is adjusting once |
| MainHelpers.BaseContent | main.py:104-106 | the base text is never empty |
| MainHelpers.LanguageFallback | main.py:105 | a language without texts gets the English ones |
| MainHelpers.TypeFallback | main.py:106 | a type without a text gets the language's txt text, then "Sample content" |
| MainHelpers.ContentText | main.py:108-114 | pdf, docx and xlsx text is the base text framed by `[TYPE Document]` and `[End of Document]`; other types get the base text alone |
| MainHelpers.FitToSize | main.py:116-127 | repeated and cut to exactly the size, cycling the content |
| MainHelpers.DrawBytes | main.py:133 | one random byte per position, `min(1024, size)` of them |
| MainHelpers.CreateDummyImageContent | main.py:130-140 | exactly max(0, size) bytes, cycling a random pattern of min(1024, size) bytes |
| MainHelpers.GenerateFileContent | main.py:62-127 | exactly the planned size; `jpg` goes to the dummy-image path and every other type, `png` included, cycles the UTF-8 of its text |
| Phrases.StrippedLines | phrase_generator.py:174 | only stripped, non-empty lines are kept |
| Phrases.StrippedLinesKeeps | phrase_generator.py:174 | every line with content is kept, stripped, and nothing else is |
| Phrases.ReadLines | phrase_generator.py:170-176 | stripped non-empty lines without newlines, and none for an unreadable file |
| Phrases.Classify | phrase_generator.py:55-65 | for each list, the exact condition for a name to go there: vocab, txt or csv by suffix in that order, then first names and last names by substring when no suffix matched, and nowhere otherwise |
| Phrases.SuffixBeforeSubstring | phrase_generator.py:56-62 | suffixes decide before substrings |
| Phrases.Collect | phrase_generator.py:53-65 | each list holds only regular files that select it |
| Phrases.DetectedPartition | phrase_generator.py:53-65 | every matching file lands in exactly one list |
| Phrases.PhraseGenerator.AutoDetectDataFiles | phrase_generator.py:40-65 | the lists become the classification of the listing, and nothing else changes |
| Phrases.PhraseGenerator.ClassifyListing | phrase_generator.py:53-65 | the loop gives the classification of the listing |
| Phrases.AnyIn | phrase_generator.py:118 | a name matches exactly when one of the fragments occurs in it |
| Phrases.Keep | phrase_generator.py:125 | the sorted codes that were found, in order |
| Phrases.ShownUpToAll | phrase_generator.py:114-122 | a code is found exactly when some name shows one of its fragments |
| Phrases.PhraseGenerator.DetectAvailableLanguages | phrase_generator.py:96-125 | the codes some name shows, sorted without repeats, or English alone when none does |
| Phrases.PhraseGenerator.RandomFromVocab | phrase_generator.py:178-181 | an entry of the vocabulary, or the name in brackets without drawing when it is missing or empty |
| Phrases.PhraseGenerator.RandomCity | phrase_generator.py:197-202 | San Francisco without cities |
| Phrases.PhraseGenerator.RandomState | phrase_generator.py:204-209 | California without states |
| Phrases.PhraseGenerator.RandomAddress | phrase_generator.py:183-195 | the fixed address when there are neither addresses nor streets, cities and states |
| Phrases.PlaceholdersListed | phrase_generator.py:216-229 | the twelve placeholders in map order, and the vocabulary or special source each one reads |
| Phrases.ReplaceFirstAts | phrase_generator.py:245 | replacing a placeholder by text without `@` removes an `@` |
| Phrases.PhraseGenerator.ExpandPlaceholder | phrase_generator.py:233-245 | after the loop the placeholder no longer occurs |
| Phrases.PhraseGenerator.ExpandFrom | phrase_generator.py:232-247 | expanding the placeholders in map order never adds an `@`, and a template without `@` is returned unchanged without a draw |
| Phrases.PhraseGenerator.ExpandTemplate | phrase_generator.py:211-247 | the expansion the placeholder map gives, in map order |
| Phrases.PhraseGenerator.GenerateFrom | phrase_generator.py:249-268 | a chosen template expanded, or the fallback without drawing |
| Phrases.PhraseGenerator.GenerateQuery | phrase_generator.py:249-254 | "search query" without templates |
| Phrases.PhraseGenerator.GenerateSentence | phrase_generator.py:256-261 | "This is a sample sentence." without templates |
| Phrases.PhraseGenerator.GenerateStorySentence | phrase_generator.py:263-268 | "Once upon a time, there was a story." without templates |
| Phrases.PhraseGenerator.DocumentParts | phrase_generator.py:299-315 | the text grows from what was gathered until it reaches the length |
| Phrases.PhraseGenerator.DocumentContent | phrase_generator.py:294-318 | exactly the requested length, and the empty string without drawing for a length of zero or less |
| Phrases.PhraseGenerator.GenerateRealisticDocumentContent | phrase_generator.py:294-318 | the loop gives the document text the function describes |
| Templates.TableShape | templates.py:2336-2345 | the table registers eight kinds, each under its own name, no name twice |
| Templates.GetSupportedTypes | templates.py:2357-2359 | exactly pdf, docx, xlsx, eml, csv, txt, jpg and png, distinct |
| Templates.SupportedTypesLookup | templates.py:2348-2359 | every supported name is found by the factory's lookup and maps to its table entry |
| Templates.LookupKind | templates.py:2350 | the lookup finds a kind only under its own name, and nothing for an unlisted name |
| Templates.LookupSupported | templates.py:2350-2352 | the lookup fails exactly on the names the factory does not list |
| Templates.LookupKindName | templates.py:2350 | every kind is found under its own name |
| Templates.FakerLocale | templates.py:43-52 | English US exactly for the codes outside the map |
| Templates.AgeRange | templates.py:72-77 | each age band starts further back than it ends |
| Templates.DrawAge | templates.py:80-83 | the age band takes one draw |
| Templates.AgeBandDrawn | templates.py:80-83 | every age band can be drawn |
| Templates.NewTemplate | templates.py:40-91 | a template keeps its kind and language, maps the locale, and takes two draws |
| Templates.CreateTemplate | templates.py:2348-2355 | an unknown lower-cased type raises `Unsupported file type`; a known one builds its template |
| Templates.CreateTemplateIgnoresCase | templates.py:2350 | the factory ignores the case of the type |
| Templates.TxtPad | templates.py:1720-1727 | content at or above the target is unchanged, and empty content with a positive target divides by zero |
| Templates.TxtPadExact | templates.py:1722-1725 | padding hits the target exactly and cycles the text |
| Templates.ExtraRowCap | templates.py:1404-1405 | extra rows only when short of a target above 10000, at most 5000, and at most (target − len) // 200 |
| Templates.AddCsvRows | templates.py:1404-1416 | the rows written stay within the cap, the loop stops at the first checked row whose buffer reaches nine tenths of the target, and every earlier checked row was short of it |
| Templates.Rows | templates.py:1407-1409 | each extra row adds a newline and the row at the end |
| Templates.RowsPrefix | templates.py:1407-1409 | rows are only appended: the buffer after fewer rows starts the buffer after more |
| Templates.CsvRowsDecode | templates.py:1416 | the final bytes decode to the text and the rows |
| Templates.ThreadSubjects | templates.py:894-905 | the base subject first, "Re: " for replies 1 and 2, "Re: Re: " after |
| Templates.ThreadSubjectsNest | templates.py:899-905 | each subject ends with every earlier one |
| Decoder.DetectEncodingMethod | tests/decode_chaff.py:35-56 | no method exactly when no suffix matches and the file is not a zip; otherwise one of the four labels |
| Decoder.GetOriginalFilename | tests/decode_chaff.py:59-65 | unchanged exactly when no suffix matches; otherwise the name without its four-character suffix |
| Decoder.SuffixRoundTrip | tests/decode_chaff.py:35-65 | a name with a suffix appended gets the name back and that suffix's label |
| Decoder.StripNewlines | tests/decode_chaff.py:74-76 | no newline is left, and content without one is unchanged |
| Decoder.StripNewlinesRemovesAll | tests/decode_chaff.py:74-76 | the result is the content with every newline removed |
| Utf8.DecodeEncode | file_linking.py:747-749 | decoding with errors ignored gives back any encoded text |
| Decoder.DecodeBase64FileStandard | tests/decode_chaff.py:68-85 | the standard and multiline layouts decode back to the content |
| Decoder.DecodeBase64File | tests/decode_chaff.py:68-94 | as written: it fails exactly when both the standard and the URL-safe decoder reject the newline-free content |
| Decoder.UrlSafeLayoutMisdecoded | tests/decode_chaff.py:78-85 | as written, the URL-safe layout "____" of three 0xFF bytes decodes to no bytes |
| Decoder.DecodeBase64FileFixedInverts | tests/decode_chaff.py:68-85 | corrected, every base64 layout the encoder writes decodes back |
| Decoder.DecodeBase64FileFixed | tests/decode_chaff.py:78-85 | corrected: the URL-safe decoding of the content without its newlines |
| Decoder.SplitSalt | tests/decode_chaff.py:111-113 | the salt and the token put back together are the data, and the salt has 16 bytes when there are enough |
| Decoder.DecodeEncryptedFile | tests/decode_chaff.py:101-138 | decrypts the bytes after the first 16 under the key derived from the password and those 16 bytes; shorter data is all salt and an empty token |
| Decoder.FernetRoundTrip | tests/decode_chaff.py:101-126 | when decryption inverts encryption, a Fernet file decrypts to the content under the recorded password |

## Left out

- File and directory I/O: reading and writing files, `mkdir`, `os.path.exists`, `shutil.disk_usage`, `.env` loading, `argparse` and the `main()` drivers. The free space, whether the directory exists, the directory's listing and the files' texts are parameters.
- PBKDF2-HMAC-SHA256, Fernet, `os.urandom`, the pyzipper AES/LZMA writer and zip opening are parameters (`Encoding.Primitives`, `Decoder.Decrypt`, `opensAsZip`). Round trips take the inverse law as a precondition.
- Faker's values, `secrets.choice` and the rendered template bytes are inputs (`PasswordFakes`, `strongDraws`, `EmailFakes`, the environment's render function). PDF, DOCX, XLSX and image rendering are not part of this model.
- Probabilities and weights are integer percentages and hundredths, compared against a draw. The float arithmetic of `random()` and `random.choices` is not modelled.
- `format_size` and the fractional forms that `_parse_size` accepts (such as "0.1MB") are floating point. `Settings.ParseSize` reads integer magnitudes only and returns `None` where `float()` would accept a fraction or an exponent.
- `Settings.ParseMagnitude`: it also returns `None` for digits that `float()` accepts but the model does not read: underscores between digits ("1_000") and non-ASCII decimal digits. Magnitudes above 2**53, which `float()` rounds, are kept exact.
- `Common.Lower` and `Common.Upper` fold the ASCII letters only. Python's `str.lower()` and `str.upper()` also map other characters, such as U+212A KELVIN SIGN to `k`. So a file type or size unit written with such characters is not recognised by the model.
- `generate_password("weak")` is not modelled, because `encode_file` asks only for medium and strong passwords.
- `decode_zip_file`, `randomize_file_metadata` and `cleanup_files` are not part of this model; they only drive libraries and the file system.
- `MainHelpers.TargetDirectory.CreateLinkedFile`: a write that raises, which the source reports and returns False for, is not modelled; the write always succeeds.
- `Phrases.ReadLines` takes the text after Python's newline translation, so `\r\n` and `\r` endings are already `\n`.
- The `_load_*` loaders of `PhraseGenerator` (vocabularies, queries, sentences, CSV rows, street names, name lists) are not modelled; their results are constructor parameters.
- `generate_realistic_email_content` and `generate_realistic_name_data` are not part of this model.
- `Phrases.PhraseGenerator.ExpandTemplate` requires vocabularies and CSV values without `@` (`Clean()`). With a value holding a placeholder, the source's `while` loop may never end.
- `Phrases.PhraseGenerator.Replacement`: the `replacement = placeholder` fallback cannot be reached, because every placeholder either has a vocabulary or is one of the three special ones, and it is not modelled.
- `Phrases.PhraseGenerator.DetectAvailableLanguages` reads the names of every entry of the listing, directories included, as `glob('*')` does.
- `Phrases.PhraseGenerator.AutoDetectDataFiles`: a missing data directory is an empty listing.
- The language detection of settings.py (`_detect_available_languages`) only asks the phrase generator and falls back to English; it is `Phrases.PhraseGenerator.DetectAvailableLanguages`, which never returns an empty list.
- `Settings.GenerateFilePlan`: an empty `chaff_file_types` or language list, and an empty size range, end in an error value where the source raises from `random.choice` or `randint`.
- Templates: only the factory, the locale map, the age band draw, TXT padding, the CSV row loop and the thread subjects are modelled. The document bodies come from the render parameter.
- `Templates.AddCsvRows`: the rows themselves are a parameter, and the model does not say which CSV layout produced them.
- `Rewrite.GenerateEmail`: the date formatting, the subject pool and Faker's names are inputs.
- Update in place of the encoded-file records is modelled as replacing the manager's list of `EncodedFile` values. Aliasing between `file_groups` and the plan list is not modelled.

## Findings

| source | as written | input that shows it | evidently intended | confidence | as-written member | corrected member |
|---|---|---|---|---|---|---|
| tests/decode_chaff.py:78-85 | the lenient standard `b64decode` is tried first, and `urlsafe_b64decode` only when that raises; the lenient decoder skips `-` and `_` without raising | the BASE64_URL_SAFE layout of bytes FF FF FF is "____", which decodes to b"" | every layout the encoder writes decodes back to its content | not executed | Decoder.UrlSafeLayoutMisdecoded | Decoder.DecodeBase64FileFixedInverts |
