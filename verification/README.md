# Models and proofs for GPGPU-Sim's front end

This project models the parts of GPGPU-Sim that turn programs and traces into other programs and traces, and
proves that they keep what they must keep. To verify: `dafny verify dfyconfig.toml`.

* **The SASS guide's PTX rewriter** (`Ptx*.dfy`, except `PtxImageSelect`). The script blanks comments, finds
  instruction statements with a small scanner, puts every instruction on a line of its own, and inserts `.file`
  and `.loc` markers with physical line numbers. The regular expressions are recursive scanners over characters
  (`PtxLex`, `PtxComments`), whose meaning is stated apart from them (`PtxCommentMeans`, `PtxTokenMeans`). A text
  is also read as a *stream*: white space, token, white space, token, and so on; lexing and printing are inverse
  (`PtxLex`). The scanner is a state machine over tokens (`PtxScan`, `PtxStatements`). The two rewriting passes
  work on positions in the source, as in the script, and are shown equal to transformations of streams
  (`PtxNormalize`, `PtxMark`, `PtxWeave`), on which it can be proved that the tokens, the scanner's steps and the
  instructions stay the same (`PtxGuide`, `PtxOutside`, `PtxMarkRoles`, `PtxMarkComments`, `PtxLines`,
  `PtxIndices`, `PtxAddress`, `PtxPipeline`). `PtxExamples` shows that the conditions of these results can be met,
  and `PtxLimits` what happens without them. The notions follow the PTX ISA: section 4.2 "Comments", section 4.3
  "Statements", section 11.1.3 ".address_size", and sections 11.5.3 and 11.5.4 on ".file" and ".loc".
* **The CUDA runtime's launches** (`CudaLaunch`, `CudaRuntime`, `CudaLaunchLaws`, `CudaAdmission`,
  `CudaOutcomes`, `CudaParameters`, `CudaRuns`). `Runtime` is the object with the launch stack, the lookup tables
  and the operations pushed to the stream manager; each of its methods is proved equal to a transition function on
  `State`. What each call does is then said in sizes and tables, and the laws are about all runs of calls: who
  takes frames off the stack, in what order arguments arrive, which opt-ins for shared memory can be recorded, and
  which operations can have been admitted. `CudaRuns.PerformAll` carries them over to the object.
* **The cuobjdump section list** (`CudaSections`, `CudaSectionLaws`, `CudaSectionMeans`): pruning by capability,
  and merging the PTX of each identifier.
* **Choosing PTX images** (`PtxImageSelect`), **binding OpenCL arguments and work sizes** (`OpenClKernel`), and
  **AerialVision's trace columns** (`AerialKernels`, `AerialOrganize`).

`Shared.dfy` holds what several modules need. A method is stated against a specification function; what the
source promises is then proved of that function.

Some results say where the code and its intent part, exactly when that happens, and at which input:

* The marker pass numbers an instruction by its semicolon, not its first token (`PtxGuide.LineOfInstruction`,
  `PtxExamples.SemicolonLineDiffers`). After normalising, the two agree exactly when none of the instruction's
  tokens spans lines (`PtxLines.GuideLines`).
* The `.file` directive is put after the first `.address_size` number, wherever that is; inside an instruction it
  changes the program (`PtxAddress.MarkingPreservesIff`, `PtxLimits.AddressInsideInstruction`).
* The comment scan and the token scan disagree about a backslash at the end of a line in a string, and
  normalising can join such tokens into one string (`PtxLimits.NormalizingJoinsTokens`).
* A file name holding `*/` can close a block comment that the source leaves open, so that code is commented out
  (`PtxPipeline.MarkedHasNoComments`, `PtxExamples.NameClosesComment`). The guide's own file names have no slash.
* The capacity check of cluster launches multiplies in 32 bits (`CudaAdmission.ClusterOperationsTile`,
  `CudaAdmission.CapacityCheckWraps`).
* An absent argument of an extended launch shifts the later ones (`CudaParameters.ExParameters`,
  `CudaParameters.AbsentArgumentShifts`).
* A PTX file name without an index is misread when its module ends in a dot and digits
  (`PtxImageSelect.PlainNameRoundTrip`, `PtxImageSelect.ModuleMisread`).
* The cap on the PTX version is exceeded when the only version within it is 0 and there are larger ones
  (`PtxImageSelect.CapKeptUnless`, `PtxImageSelect.CapMissed`).
* OpenCL grid and block dimensions are cut to 32 bits (`OpenClKernel.Geometry`, `OpenClKernel.GridIsCut`).
* Accumulated cycles go back into a kernel whose first cycle is recorded as negative
  (`AerialKernels.WholeRunForward`, `AerialKernels.RunGoesBack`).

## Model

| member | source | states |
|---|---|---|
| PtxComments.KeepsPlaces | scripts/generate_sass_ptxline_guide.py:17-31 | blanking keeps the length and every CR and LF, and each character either stays or becomes a space, on every text |
| PtxComments.KeepsLines | scripts/generate_sass_ptxline_guide.py:17-31 | as many newlines precede each position after blanking as before, so physical line numbers agree |
| PtxComments.OnlyLiteralsLeft | scripts/generate_sass_ptxline_guide.py:20-31 | scanning the blanked text meets the same string literals at the same places and no comment, also with unclosed quotes and comments |
| PtxComments.LiteralsVerbatim | scripts/generate_sass_ptxline_guide.py:17-31 | every string literal of the source stands verbatim at its place in the blanked text |
| PtxComments.BlankingIsIdempotent | scripts/generate_sass_ptxline_guide.py:25-31 | blanking twice is blanking once, on every text |
| PtxCommentMeans.CommentMeans | scripts/generate_sass_ptxline_guide.py:20-23 | a comment is `//` up to a line end or the text's end, or `/*` through its first `*/` |
| PtxCommentMeans.LiteralMeans | scripts/generate_sass_ptxline_guide.py:20-23 | a string literal is what escapes and other characters fill between two quotes |
| PtxCommentMeans.ItemsMean | scripts/generate_sass_ptxline_guide.py:25-31 | the scan finds exactly the literals and comments from the left: all found are in place, apart and of their form, and none starts where none is found |
| PtxCommentMeans.OnlyCommentsBlanked | scripts/generate_sass_ptxline_guide.py:25-31 | inside comments everything but CR and LF becomes a space, and every other character of the text stays |
| PtxLex.LexIsWellFormed | scripts/generate_sass_ptxline_guide.py:42-44 | the tokens with the white space between them print back the text, and each is what the regex finds at its place |
| PtxLex.LexText | scripts/generate_sass_ptxline_guide.py:44 | lexing undoes printing: a text has one token stream |
| PtxLex.LexClosed | scripts/generate_sass_ptxline_guide.py:21-44 | all quotes close exactly when no token is a lone quote |
| PtxTokenMeans.CharacterClasses | scripts/generate_sass_ptxline_guide.py:20-44 | the character classes in code points: white space, digits, word characters, identifier starts and parts |
| PtxTokenMeans.TokenMeans | scripts/generate_sass_ptxline_guide.py:42-44 | the token at the front of a text is the string that starts there, else all of an identifier, else one character |
| PtxScan.InstructionSpans | scripts/generate_sass_ptxline_guide.py:47-90 | the loop with its depth, pending statement and directive flag finds exactly the spans that the scanner's mode defines token by token |
| PtxScan.SourceTexts | scripts/generate_sass_ptxline_guide.py:47-90 | spans are in order, disjoint, not empty, in the source, and cut out of it exactly the instruction texts of the stream |
| PtxScan.SourceSpansDelimited | scripts/generate_sass_ptxline_guide.py:75-88 | each span runs from a non-directive token through the first semicolon token from there |
| PtxScan.RolesClassify | scripts/generate_sass_ptxline_guide.py:54-90 | every token has one role; it is an instruction token exactly when it stands in a span, a directive token exactly when a token with a dot began a directive that no token before it has ended, and an unfinished statement takes all tokens to the end |
| PtxScan.DirectiveEnds | scripts/generate_sass_ptxline_guide.py:75-90 | a directive ends exactly with its first semicolon or, for `.loc`, `.file` and `.section`, with the first token that a newline follows |
| PtxScan.DepthCountsScopes | scripts/generate_sass_ptxline_guide.py:53-90 | at any token of a function body the depth is 1 plus opening minus closing scope braces since the body opened, it stays positive, and the body ends exactly with the brace that closes the first; braces in statements count for nothing |
| PtxStatements.BodyOpensAt | scripts/generate_sass_ptxline_guide.py:58-65 | outside every body one opens exactly at `{` after `.entry` or `.func` with no `;` and no body between |
| PtxStatements.DirectiveEndsAt | scripts/generate_sass_ptxline_guide.py:79-88 | a directive ends exactly at its first `;` or, for `.loc`, `.file` and `.section`, at its first token that a newline follows |
| PtxStatements.RolesMean | scripts/generate_sass_ptxline_guide.py:54-90 | the role of each token by name: outside, in a directive or an instruction begun at or before it and not ended between, a label or its colon, or a scope brace |
| PtxLoosen.LoosenedIsClosed | scripts/generate_sass_ptxline_guide.py:42-44 | changing white space without closing up any gap keeps the token sequence and the closed quotes |
| PtxLoosen.NoCommentAppears | scripts/generate_sass_ptxline_guide.py:20-44 | such a change to comment-free text makes no comment appear |
| PtxNormalize.NormalizePtx | scripts/generate_sass_ptxline_guide.py:93-108 | the loop over the spans returns the text with each span folded onto a line of its own |
| PtxNormalize.RebuildIsNorm | scripts/generate_sass_ptxline_guide.py:93-108 | rewriting by positions prints the stream in which only white space in and around instructions is changed |
| PtxNormalize.NormalizedLexes | scripts/generate_sass_ptxline_guide.py:93-108 | the normalised text is lexed as that stream |
| PtxNormalize.NormalizePreservesProgram | scripts/generate_sass_ptxline_guide.py:93-108 | for closed quotes, the normalised text has the tokens of the blanked source, the same instructions token for token in order, and each instruction text is the original folded |
| PtxNormalize.NormalizedHasNoComments | scripts/generate_sass_ptxline_guide.py:93-108 | blanking changes nothing in a normalised text |
| PtxOutside.NormalizedExactly | scripts/generate_sass_ptxline_guide.py:93-108 | what stands before, between and after the instructions is verbatim in the normalised text, with a newline more at each side of an instruction; each instruction is its tokens with one space for whatever white space stood between |
| PtxInsert.SortSorts | scripts/generate_sass_ptxline_guide.py:111-121 | sorting the insertions orders them by position, then text, and neither loses nor repeats one |
| PtxInsert.StringLeqMeans | scripts/generate_sass_ptxline_guide.py:111-121 | texts at one position are ordered as strings: by the first character that differs, a prefix first |
| PtxInsert.ApplyInsertions | scripts/generate_sass_ptxline_guide.py:111-121 | the loop with its cursor weaves the sorted fragments into the source |
| PtxInsert.InsertionsErase | scripts/generate_sass_ptxline_guide.py:111-121 | weaving equals inserting one by one from the back, adds the fragments' lengths, and erasing the fragments gives the source back |
| PtxMarkers.CounterIsRecount | scripts/generate_sass_ptxline_guide.py:139-153 | the running newline counter and line start equal a recount from the beginning of the text |
| PtxMarkers.PassNewlines | scripts/generate_sass_ptxline_guide.py:143-153 | advancing the shared newline iterator to a position gives that position's line number and line start |
| PtxMarkers.LocMarkers | scripts/generate_sass_ptxline_guide.py:139-162 | the one pass over spans and newlines yields for each span the marker that recounting from scratch gives |
| PtxMarkers.AddLineMarkers | scripts/generate_sass_ptxline_guide.py:124-163 | the marked text and the count, or which of the two errors is raised |
| PtxMarkStream.QuotedIsString | scripts/generate_sass_ptxline_guide.py:128-132 | the escaped and quoted file name is one closed string token for every name |
| PtxMarkStream.QuotedRoundTrip | scripts/generate_sass_ptxline_guide.py:128-132 | undoing the escapes of the literal gives the file name back |
| PtxMark.MarkClosed | scripts/generate_sass_ptxline_guide.py:124-163 | inserting `.loc` and `.file` directives keeps a stream of complete tokens with closed quotes |
| PtxMark.MarkPreserves | scripts/generate_sass_ptxline_guide.py:124-163 | the scanner passes over every inserted directive as a complete one and finds the same instruction texts |
| PtxWeave.MarkersAreMarks | scripts/generate_sass_ptxline_guide.py:139-162 | the markers computed from positions stand in the white space before the instruction's first token |
| PtxWeave.WeaveIsMark | scripts/generate_sass_ptxline_guide.py:111-163 | weaving the fragments in by position prints the marked stream |
| PtxGuide.MarkedLexes | scripts/generate_sass_ptxline_guide.py:124-163 | the marker pass succeeds on markable PTX and its output is lexed as the marked stream |
| PtxGuide.MarkingPreservesProgram | scripts/generate_sass_ptxline_guide.py:124-163 | scanning the marked text finds exactly the instruction texts of the source, in order, and as many as reported |
| PtxMarkRoles.MarkingKeepsRoles | scripts/generate_sass_ptxline_guide.py:124-163 | in the marked text all tokens of the source are there, in order and in their roles (instruction, directive, label, scope, outside), once the tokens of the inserted directives are left out |
| PtxAddress.MarkPreservesIff | scripts/generate_sass_ptxline_guide.py:124-163 | the marked tokens have the same instruction texts exactly when the `.file` directive goes into none of them |
| PtxAddress.MarkingPreservesIff | scripts/generate_sass_ptxline_guide.py:124-163 | for an `.address_size` number at module level or inside a statement, marking keeps the instruction texts exactly when the number does not end inside an instruction |
| PtxGuide.MarkersStandBetween | scripts/generate_sass_ptxline_guide.py:139-162 | marker positions strictly increase, lie outside all spans and split no token, and only white space separates a marker from its instruction, for every source |
| PtxGuide.MarkerMeans | scripts/generate_sass_ptxline_guide.py:153-162 | a marker stands at its line's beginning when only white space precedes the instruction there, else right before it, on a line of its own, and says index, line of the semicolon and column 0 |
| PtxGuide.MarkersErase | scripts/generate_sass_ptxline_guide.py:124-163 | erasing the fragments from the marked text gives the comment-free source back, and the lengths add up, for every source |
| PtxMarkComments.MarkOpens | scripts/generate_sass_ptxline_guide.py:124-163 | the marked tokens open no comment exactly when the quoted name does not close a block comment left open before the `.file` directive |
| PtxGuide.LineOfInstruction | scripts/generate_sass_ptxline_guide.py:149-161 | a marker's number is the line of its instruction's first token exactly when the instruction has no newline |
| PtxGuide.NormalizedStaysClosed | scripts/generate_sass_ptxline_guide.py:93-108 | closed quotes survive normalising |
| PtxGuide.NormalizedLineMap | scripts/generate_sass_ptxline_guide.py:93-163 | for closed quotes: in the normalised text each instruction starts a line and a line ends after it; it is on one line exactly when none of its tokens spans lines; the k-th marker stands at the line's start with the number of the k-th semicolon; later instructions have larger numbers |
| PtxIndices.FileIndexIsNext | scripts/generate_sass_ptxline_guide.py:34-39 | the new index is above that of every `.file` directive that starts a line, and is 1 or one above the index of such a directive |
| PtxIndices.AddressMeans | scripts/generate_sass_ptxline_guide.py:129-132 | the `.file` directive goes after the number of the text's first `.address_size`, if there is one |
| PtxIndices.OutcomeMeans | scripts/generate_sass_ptxline_guide.py:129-137 | which error is raised, exactly: the missing `.address_size` first, then the missing instructions |
| PtxPipeline.AddressShared | scripts/generate_sass_ptxline_guide.py:129-132 | where the first `.address_size` number ends depends only on the text through the character after it |
| PtxPipeline.NormalizedMarkable | scripts/generate_sass_ptxline_guide.py:213-215 | markable PTX whose `.address_size` precedes the first instruction is still markable after normalising |
| PtxPipeline.MarkedHasNoComments | scripts/generate_sass_ptxline_guide.py:124-163 | the marked text has no comment to blank exactly when the file name does not close a block comment the source leaves open; always for a name without a slash |
| PtxPipeline.PipelinePreservesProgram | scripts/generate_sass_ptxline_guide.py:213-215 | the marked, normalised text has the source's instructions in order, each folded and otherwise as written |
| PtxLines.MarkedLines | scripts/generate_sass_ptxline_guide.py:124-163 | a reader of the marked text who takes the last `.loc` before each instruction finds the new file's index, the line of the source's semicolon and column 0, in order; and the text declares that index with the quoted name |
| PtxLines.GuideLines | scripts/generate_sass_ptxline_guide.py:213-215 | reading the marked, normalised text gives the k-th instruction the normalised line of its semicolon, which is that of its first token exactly when none of its tokens spans lines |
| PtxExamples.ModuleIsMarkable | scripts/generate_sass_ptxline_guide.py:124-137 | modules with one instruction meet all conditions of the marking and pipeline results |
| PtxExamples.SemicolonLineDiffers | scripts/generate_sass_ptxline_guide.py:149-161 | in a markable module whose instruction spans two lines the marker's number is not the line of the first token |
| PtxExamples.NameClosesComment | scripts/generate_sass_ptxline_guide.py:128-132 | a markable module and a file name whose marked text has a comment |
| PtxLimits.AddressInsideInstruction | scripts/generate_sass_ptxline_guide.py:129-132 | an `.address_size` inside an instruction makes the marked text a different program |
| PtxLimits.NormalizingJoinsTokens | scripts/generate_sass_ptxline_guide.py:20-44 | a string with a backslash at a line's end is several tokens before normalising and one after |
| CudaRuntime.Runtime.SetupArgument | libcuda/cuda_runtime_api.cc:1094-1116 | pushes the argument at the front of the top frame's list; an empty stack aborts |
| CudaRuntime.Runtime.BindGridParams | libcuda/cuda_runtime_api.cc:5085-5126 | the reverse-indexed loop gives parameter i the argument i from the back of the list |
| CudaRuntime.Runtime.LaunchChecks | libcuda/cuda_runtime_api.cc:1148-1241 | the shared-memory and cluster checks in order, with the error of the first that fails |
| CudaRuntime.Runtime.Launch | libcuda/cuda_runtime_api.cc:1118-1323 | the whole new state and the status on every return path: empty grid, rejections, skipped kernels, pushed operation |
| CudaRuntime.Runtime.LaunchKernel | libcuda/cuda_runtime_api.cc:2420-2458 | takes a pushed frame or pushes one, sets all parameters and launches |
| CudaRuntime.Runtime.ParseAttributes | libcuda/cuda_runtime_api.cc:8540-8619 | the last cluster dimension attribute counts, and the last scheduling policy is stored |
| CudaRuntime.Runtime.LaunchKernelExC | libcuda/cuda_runtime_api.cc:8540-8619 | the whole new state and the status, with the cluster of the attribute or else of the function |
| CudaRuntime.Runtime.FuncSetAttribute | libcuda/cuda_runtime_api.cc:4660-4810 | the new tables and the error code for every attribute and value |
| CudaRuntime.Runtime.CuFuncSetAttribute | libcuda/cuda_runtime_api.cc:6724-6776 | the new tables and the error code in the driver interface |
| CudaLaunchLaws.StackEffect | libcuda/cuda_runtime_api.cc:1118-1323 | each return path of a launch removes exactly the top frame; the extended launch and the attribute calls leave the stack as it was |
| CudaLaunchLaws.DepthOverRuns | libcuda/cuda_runtime_api.cc:1018-1323 | over every run without abort, depth is pushes minus launches |
| CudaLaunchLaws.ItemsKeepStack | libcuda/cuda_runtime_api.cc:1018-1323 | while a frame is on top only its own arguments change the stack, whatever launches are nested between them |
| CudaLaunchLaws.ScriptKeepsStack | libcuda/cuda_runtime_api.cc:1018-1323 | a configured launch with other launches nested between its arguments restores the stack, and its parameters are its own arguments in order |
| CudaLaunchLaws.ParametersInOrder | libcuda/cuda_api_object.h:193-195 | front-pushing and reverse indexing cancel: parameter i is the i-th argument set |
| CudaOutcomes.LaunchOutcome | libcuda/cuda_runtime_api.cc:1118-1323 | how a launch ends, in sizes and tables: each error with its exact condition, success, and everything it changes |
| CudaOutcomes.SharedOverRuns | libcuda/cuda_runtime_api.cc:1148-1175 | over every run the static plus dynamic shared memory of each operation is within the block limit, or within the opt-in limit for a kernel that opted in |
| CudaOutcomes.ConfigurationReadBack | libcuda/cuda_runtime_api.cc:4374-4397 | a pushed configuration is read back; on an empty stack reading aborts |
| CudaOutcomes.DimensionMeans | libcuda/cuda_runtime_api.cc:8565-8575 | the cluster of the attributes is that of the last cluster dimension attribute, if any |
| CudaOutcomes.ExOutcome | libcuda/cuda_runtime_api.cc:8540-8619 | the errors of the call itself, else a launch on a new frame with the attribute's cluster, else the function's |
| CudaOutcomes.OptInOutcome | libcuda/cuda_runtime_api.cc:4660-4742 | a request is recorded exactly when it is not negative and fits beside the static size, in both interfaces |
| CudaOutcomes.CarveoutOutcome | libcuda/cuda_runtime_api.cc:4744-4757 | a carveout is recorded exactly when it is -1 or 0 to 100 |
| CudaOutcomes.UnknownOutcome | libcuda/cuda_runtime_api.cc:4710-4768 | the outcome for functions that are not known, and for attributes the driver interface ignores |
| CudaOutcomes.ClusterAttributeOutcome | libcuda/cuda_runtime_api.cc:4759-4810 | a call with one of the other attributes changes only the function, as its attribute says |
| CudaOutcomes.SetClusterMeans | libcuda/cuda_runtime_api.cc:4770-4808 | each cluster attribute sets its own dimension and makes the others at least 1; the others set what they name |
| CudaOutcomes.ClusterAttributeOnly | libcuda/cuda_runtime_api.cc:4759-4810 | those calls succeed and touch no other function, table or frame |
| CudaOutcomes.ClusterDimensionsSet | libcuda/cuda_runtime_api.cc:4770-4795 | setting width, height and depth in either order gives clusters of those dimensions |
| CudaRuns.PerformAll | libcuda/cuda_runtime_api.cc:1018-1323 | any sequence of calls on the object, up to an abort, reaches the state of the run, with depth pushes minus launches and the admission invariants kept |
| CudaParameters.ArgumentsInPlace | libcuda/cuda_runtime_api.cc:8611-8616 | the arguments set for a list of values are in place exactly when no present value follows an absent one |
| CudaParameters.AbsentArgumentShifts | libcuda/cuda_runtime_api.cc:8611-8616 | an absent first argument makes the second parameter's value the first parameter |
| CudaParameters.ExParameters | libcuda/cuda_runtime_api.cc:8540-8619 | the operation of an extended launch has the present values as parameters, parameter i being value i exactly when no present value follows an absent one |
| CudaParameters.KernelParameters | libcuda/cuda_runtime_api.cc:2420-2458 | the operation of a plain launch on a bare frame has exactly one parameter for each of the kernel's, parameter i being value i with its size and offset, and the frame's geometry |
| CudaParameters.ScriptParameters | libcuda/cuda_runtime_api.cc:1018-1323 | the operation of a launch with others nested between its arguments has its own arguments, in order, and its own geometry |
| CudaAdmission.LaunchAdds | libcuda/cuda_runtime_api.cc:1183-1323 | a successful launch that is not skipped adds one operation, with its kernel's name and its frame's geometry, cluster and parameters |
| CudaAdmission.OptInsOverRuns | libcuda/cuda_runtime_api.cc:4660-4742 | over every run, static plus recorded size of each opt-in stays within the opt-in limit |
| CudaAdmission.SharedMemoryRule | libcuda/cuda_runtime_api.cc:1148-1175 | after any run an opted-in kernel passes exactly when dynamic is at most recorded, any other exactly when static plus dynamic fit the block limit |
| CudaAdmission.AdmittedOverRuns | libcuda/cuda_runtime_api.cc:1183-1254 | over every run all operations in the stream manager passed the cluster and geometry checks |
| CudaAdmission.ClusterOperationsTile | libcuda/cuda_runtime_api.cc:1183-1254 | after any run each cluster operation divides its grid evenly, CTAs are clusters times CTAs per cluster, and the size is within the capacity exactly when its product does not wrap in 32 bits |
| CudaAdmission.CapacityCheckWraps | libcuda/cuda_runtime_api.cc:1225-1241 | from a fresh runtime, on every device, one extended launch of a cluster above the capacity succeeds and reaches the stream manager, because its 32-bit size is 1 |
| CudaAdmission.EveryCtaHasItsCluster | libcuda/cuda_runtime_api.cc:1204-1224 | every CTA of an admitted grid is at one place of one cluster |
| CudaAdmission.EveryPlaceIsOneCta | libcuda/cuda_runtime_api.cc:1204-1224 | every place of every cluster is one CTA of the grid and no other place is |
| CudaAdmission.ClusterTotals | libcuda/cuda_runtime_api.cc:1204-1254 | total CTAs are clusters times CTAs per cluster |
| CudaSections.SectionList.PruneSectionList | libcuda/cuda_runtime_api.cc:3926-3991 | the two passes return the kept sections, or fail when none is left |
| CudaSections.PruneKeepsBest | libcuda/cuda_runtime_api.cc:3926-3991 | kept are, in order, exactly the sections with the highest eligible PTX capability of their identifier |
| CudaSections.PruneKeepsIdentifiers | libcuda/cuda_runtime_api.cc:3926-3991 | no identifier with an eligible PTX is lost, and all its surviving sections share one capability |
| CudaSectionMeans.PrunedMeans | libcuda/cuda_runtime_api.cc:3926-3991 | with the options written out: kept are the sections of the highest capability that a PTX of their identifier has within 19 for PTXPlus and within the forced one |
| CudaSectionMeans.PrunedOneByOne | libcuda/cuda_runtime_api.cc:3960-3991 | each section is kept or dropped by its own capability; order and number of equal sections stay |
| CudaSections.SectionList.MergeMatchingSections | libcuda/cuda_runtime_api.cc:3994-4036 | the list without the identifier's PTX and then its last one, and the files after every append; or the failure to read one |
| CudaSections.SectionList.CollectIdentifiers | libcuda/cuda_runtime_api.cc:4038-4065 | the identifiers of the PTX sections in first-seen order |
| CudaSections.SectionList.MergeSections | libcuda/cuda_runtime_api.cc:4038-4065 | the list and files are those after merging all identifiers in turn |
| CudaSections.MatchingElsewhere | libcuda/cuda_runtime_api.cc:3994-4065 | merging one identifier leaves the PTX sections of another, in order |
| CudaSections.IdentifiersMatch | libcuda/cuda_runtime_api.cc:4038-4065 | the collected identifiers are distinct, each has a PTX section, and none is missed |
| CudaSectionMeans.FirstSeenOrder | libcuda/cuda_runtime_api.cc:4038-4052 | of two identifiers, the earlier in the list is seen earlier among the sections |
| CudaSectionMeans.PartsOfList | libcuda/cuda_runtime_api.cc:3994-4036 | the sections to merge and the others are picked one by one, in order, by kind and identifier |
| CudaSectionMeans.MergeOneMore | libcuda/cuda_runtime_api.cc:4007-4026 | each further section gets the text of the one before from its 51st character on; an unreadable or empty text is an error and one under 50 characters is not appended |
| CudaSectionLaws.MergeConserves | libcuda/cuda_runtime_api.cc:3994-4036 | the surviving file is the last text and then each earlier text without its first 50 characters, newest to oldest; other files stay |
| CudaSectionMeans.CodesMean | libcuda/cuda_runtime_api.cc:4007-4026 | the code that is collected is each older text without its first 50 characters, newest first |
| CudaSectionLaws.MergeAllConserves | libcuda/cuda_runtime_api.cc:3994-4065 | after merging some identifiers: the remaining sections, their survivors, and for each the whole code |
| CudaSectionLaws.MergeSectionsConserves | libcuda/cuda_runtime_api.cc:4038-4065 | all ELF sections in order, then one PTX per identifier in first-seen order, holding the code of all of them; uninvolved files are untouched |
| PtxImageSelect.ImageModuleName | libcuda/ptx_image_select.h:9-24 | the module is what stands before the index, or before the architecture |
| PtxImageSelect.ArchHasSuffix | libcuda/ptx_image_select.h:26-32 | whether some character is no digit |
| PtxImageSelect.ModuleMeans | libcuda/ptx_image_select.h:9-24 | for any name: the module stands before the dot before the last `sm_`, less a dot and a number at its end, and is empty without such a dot |
| PtxImageSelect.ArchMeans | libcuda/ptx_image_select.h:34-40 | for any name: the architecture runs from the last `sm_` to the next dot |
| PtxImageSelect.NamelessImage | libcuda/ptx_image_select.h:9-40 | a name without `sm_` has neither module nor architecture |
| PtxImageSelect.SuffixMeans | libcuda/ptx_image_select.h:26-32 | a suffix is a character other than a digit |
| PtxImageSelect.IndexedNameRoundTrip | libcuda/ptx_image_select.h:9-40 | parsing undoes printing for a name with module, index and architecture |
| PtxImageSelect.PlainNameRoundTrip | libcuda/ptx_image_select.h:9-40 | without an index it does exactly when the module does not end in a dot and digits |
| PtxImageSelect.ModuleMisread | libcuda/ptx_image_select.h:9-24 | the image of module a.1 is read as one of module a |
| PtxImageSelect.DropBaseWhenSuffixPresent | libcuda/ptx_image_select.h:44-68 | the two passes return the selected names |
| PtxImageSelect.SelectedMeans | libcuda/ptx_image_select.h:44-68 | selected, in order, are exactly the names that are no base image of a module with a suffixed image |
| PtxImageSelect.KeptOneByOne | libcuda/ptx_image_select.h:56-68 | each name is kept or dropped by itself; order and number of equal names stay |
| PtxImageSelect.ModulesStay | libcuda/ptx_image_select.h:44-68 | every module is still represented |
| PtxImageSelect.SelectedTwice | libcuda/ptx_image_select.h:44-68 | a second selection drops nothing |
| PtxImageSelect.SelectVersion | libcuda/cuda_runtime_api.cc:4174-4195 | the largest version within the cap other than 0; without one or without a cap, the largest of all |
| PtxImageSelect.CapKeptUnless | libcuda/cuda_runtime_api.cc:4174-4195 | a version within the cap is selected whenever there is one, except exactly when 0 is the only one beside larger versions |
| PtxImageSelect.CapMissed | libcuda/cuda_runtime_api.cc:4174-4195 | versions 0 and 90 under a cap of 80 give 90 |
| OpenClKernel.RoundUpIsLeast | libopencl/opencl_runtime_api.cc:275-284 | padding an offset gives the smallest multiple of the alignment not below it |
| OpenClKernel.LayoutIsLeast | libopencl/opencl_runtime_api.cc:265-291 | each argument lies at the least aligned offset after the one before, so ranges are aligned, disjoint and padded by less than the alignment |
| OpenClKernel.Kernel.BindArgs | libopencl/opencl_runtime_api.cc:265-291 | succeeds exactly when the set indices are 0 to n-1 and the kernel has that many parameters, with that layout; aborts exactly when all parameters and one more are set; reports invalid arguments in all other cases |
| OpenClKernel.AutoLocalSize | libopencl/opencl_runtime_api.cc:912-927 | terminates with the largest multiple of 64 within the limit that divides the global size, else 1 |
| OpenClKernel.LocalSizes | libopencl/opencl_runtime_api.cc:903-934 | the caller's sizes, or 1 after the automatic first size: the global size if a core holds it, else the largest multiple of 64 within the limit that divides it, else 1 |
| OpenClKernel.ChosenMeans | libopencl/opencl_runtime_api.cc:903-934 | the automatic sizes in numbers: the whole first size if a core holds it, else the largest multiple of 64 within the limit that divides it, else 1; 1 elsewhere |
| OpenClKernel.Geometry | libopencl/opencl_runtime_api.cc:902-956 | each outcome has its exact condition, the first size that does not divide deciding the error; on a launch, grid times block is the global size in each used dimension exactly when neither is cut to 32 bits, and 1 elsewhere |
| OpenClKernel.AutomaticTiles | libopencl/opencl_runtime_api.cc:903-940 | automatic sizes divide the global sizes exactly when the first global size is not 0, for a thread count that is a multiple of 64 |
| OpenClKernel.GeometryCovers | libopencl/opencl_runtime_api.cc:948-956 | the two factors cut to 32 bits multiply to the global size exactly when nothing is cut, or the size is 0 |
| OpenClKernel.GridIsCut | libopencl/opencl_runtime_api.cc:948-956 | a call with 2^38 work items in groups of 64 is accepted and launches a grid of 0 blocks |
| AerialKernels.BoundsCutTheTrace | aerialvision/guiclasses.py:1182-1192 | the bounds strictly increase, stand exactly where the cycle count restarts, and cycles strictly increase inside each piece |
| AerialKernels.GraphManager.FindKernalLocs | aerialvision/guiclasses.py:1182-1192 | the loop with its running previous cycle finds those bounds |
| AerialKernels.GraphManager.XIsKernal | aerialvision/guiclasses.py:1175-1180 | whether the sample is one of the kernel starts |
| AerialKernels.GraphManager.AddToSegment | aerialvision/guiclasses.py:1166-1169 | the descending loop adds the one value before the segment to all of it, or fails on a short column |
| AerialKernels.GraphManager.UpdateVarKernal | aerialvision/guiclasses.py:1161-1172 | the in-place loops give every sample its own value plus what earlier kernels left, and fail exactly on a short column with several kernels |
| AerialKernels.CarriedIsLastValues | aerialvision/guiclasses.py:1161-1172 | what is carried into a sample is the sum of the original last values of all earlier kernels |
| AerialKernels.RunningTotal | aerialvision/guiclasses.py:1161-1172 | the accumulated counter is the sum of all increments of a counter that restarts with each kernel |
| AerialKernels.StepForward | aerialvision/guiclasses.py:1161-1172 | accumulated cycles go up from one sample to the next, at a restart exactly when the new cycle is not negative |
| AerialKernels.WholeRunForward | aerialvision/guiclasses.py:1161-1192 | accumulated cycles never go back over the whole run exactly when no later kernel starts with a negative cycle |
| AerialKernels.RunGoesBack | aerialvision/guiclasses.py:1161-1192 | the cycles 5 and -1 accumulate to 5 and 4 |
| AerialOrganize.RecordsAreTheLog | aerialvision/organizedata.py:190-222 | a log read as NULL-terminated records and an unfinished one is written out again as itself |
| AerialOrganize.CountPlots | aerialvision/organizedata.py:195-201 | the backward scan counts the values of the last record that is not empty |
| AerialOrganize.PlotsMean | aerialvision/organizedata.py:195-201 | the number of columns is the length of the last record that is not empty, 0 when there is none |
| AerialOrganize.NullOrganizedShader | aerialvision/organizedata.py:190-222 | fails exactly when a record is longer than the last non-empty one, else column c is 0 and each record's c-th value, 0 where missing |
| AerialOrganize.Rectangular | aerialvision/organizedata.py:190-222 | with all records closed the columns have one length and entry k+1 of column c is record k's c-th value or 0 |
| AerialOrganize.ColumnsKeepTotal | aerialvision/organizedata.py:190-222 | every value ends up in the columns exactly once: the sums agree |
| AerialOrganize.BinRow | aerialvision/organizedata.py:228-238 | no bin index reaches 512, and each cell is its bin's sum over the group size, rounded toward zero |
| AerialOrganize.NullOrganizedStackedBar | aerialvision/organizedata.py:224-240 | the columns, each binned with the first column's group size if that has more than 512 entries; or the IndexError |
| AerialOrganize.BinIsSlice | aerialvision/organizedata.py:233-236 | a bin's sum is the sum of one stretch of neighbouring entries |
| AerialOrganize.BinsKeepTotal | aerialvision/organizedata.py:233-236 | the first m bins hold the sum of the entries they reach over |
| AerialOrganize.BinnedMeans | aerialvision/organizedata.py:228-238 | the bins keep the row's total before the division, which loses less than one group size per cell of a row of counts |

## Left out

- `\w` and `\d` of the guide's regular expressions are modelled on ASCII text; `\s` is Python's full set.
- PtxGuide.MarkingPreservesProgram: needs closed quotes and an `.address_size` number that ends a token at module level, which is where section 11.1.3 of the PTX ISA puts the directive; the marker pass itself does not check this.
- PtxAddress.MarkingPreservesIff: leaves out a number inside a string, between statements of a body, or in a directive that a newline ends.
- PtxPipeline.PipelinePreservesProgram: also needs that directive before the first instruction, as valid PTX has it.
- PtxNormalize.NormalizePreservesProgram: needs every quote closed by the token regex, which also excludes a backslash before a newline in a string: there the comment regex (dot matches newlines) and the token regex disagree about where the string ends.
- The guide's external tools (`ptxas`, `nvdisasm`), temporary files, command line and `.target` lookup.
- The token list with its index is walked as a linked stream; a match's position is kept as a running sum.
- CudaRuntime.Runtime.Launch: kernels are identified by name, one function for each, as the lookup tables are keyed here; a null function pointer or a failed assertion is one outcome, `Aborted`, after which nothing is claimed.
- CudaRuntime.Runtime.BindGridParams: parameter memory is the list of arguments; the parameter-table lookup by offset and the scratchpad copy inside `function_info` are not part of this model.
- CudaRuntime.Runtime.LaunchKernel: models CUDA 10 and later, where a frame may have been pushed before.
- CudaRuntime.Runtime.PopCallConfiguration: its output pointers are taken to be valid.
- Checkpoint files: only that those launch paths take the frame without pushing an operation is kept.
- The stream manager, the simulator core, the PTX parser and the device attribute tables; of them only the fields that the launch code reads and writes are kept.
- CudaSections.PruneKeepsBest: assumes no capability is 0, as parsing the section headers guarantees; the code reads a missing entry of its map as 0.
- CudaSectionLaws.MergeSectionsConserves: assumes that PTX sections have files of their own with at least 50 characters; shorter and missing files are covered by CudaSections.SectionList.MergeSections.
- Section files are maps from names to texts: file handles, `NUL` characters in PTX text and running `cuobjdump` are not modelled.
- PtxImageSelect.SelectVersion: the versions are given as the ascending keys of the ordered map.
- OpenClKernel.Kernel.BindArgs: the ordered map is visited by repeatedly taking its smallest index; sizes and alignments are positive, and offsets are unbounded.
- AerialKernels.GraphManager.UpdateVarKernal: needs the kernel starts to be those of the chosen column, as its callers arrange.
- AerialOrganize.BinRow: the two float divisions are exact here, and typed array elements do not overflow.
- The other organisers of AerialVision, `CFLOGOrganizeCuda` among them, and everything Tk or matplotlib draws.
- Stub `cu*` and `cuda*` functions, OpenGL interoperation, `cuTensorMapEncodeTiled`, tracing and printing.
- `cuobjdump_to_ptxplus` and the SASS grammar behind it.
