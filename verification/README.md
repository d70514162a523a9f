# Verified model of the voice-assistant server's algorithmic cores

This project models, in Dafny, the parts of the server whose correctness is not visible
from any single function: a queue that is cleared by swapping its channel, the Ogg/Opus
container writer and reader, regrouping of Opus packets and framing of PCM, the OpenClaw
answer stream and its text canonicaliser, story playback and its store, a resource pool,
keyset pagination of conversation records, allotment of tool names, and the coalescing of
tool-list refreshes. `dafny verify dfyconfig.toml` checks everything.

Concurrent code is a state machine whose steps are the critical sections and channel
operations; theorems quantify over every interleaving. Code that changes fields in place is
a class whose methods are proved against functions or against runs of such a machine. Pure
code is functions and lemmas.

| file | models |
|---|---|
| `Queue.dfy` | the generation-swapped queue |
| `Ogg.dfy`, `OggFields.dfy`, `OggReading.dfy`, `OggRoundTrip.dfy`, `OggOversize.dfy` | Ogg pages, Opus headers, writer and reader; the written bytes field by field; what is refused; the round trip, and packets too long for it |
| `OpusRepack.dfy`, `WavFraming.dfy` | Opus packet durations and regrouping; PCM downmix and framing |
| `OpenClawText.dfy`, `OpenClawWords.dfy`, `OpenClawJoints.dfy`, `OpenClawPieces.dfy`, `OpenClawSentences.dfy` | the speech-text canonicaliser, what it keeps, what it makes of punctuation and markup, what cutting into sentences means, and the loop that cuts |
| `OpenClawStream.dfy`, `OpenClawSession.dfy`, `OpenClawExamples.dfy` | one answer stream; sessions and whole answers; answers that are not heard in full |
| `StorySentences.dfy`, `StoryPlayback.dfy`, `StoryStore.dfy` | sentence splitting, checkpoint and resume, the record store |
| `ResourcePool.dfy` | the pool as a state machine and as an object |
| `ConversationDedupe.dfy`, `ConversationPages.dfy`, `ConversationWalk.dfy` | timeline pages, de-duplication, walking to older pages and what it shows in the end |
| `ToolNames.dfy`, `ToolsRefresh.dfy` | tool names for the language model; refresh coalescing |
| `Basics.dfy`, `Runes.dfy`, `Utf8.dfy` | shared types and facts; white space and trimming; UTF-8 |

## Properties that fail, and exactly when they hold

- A push reports "queue closed" on a queue that was never closed when 2^64 clears pass while
  it sleeps between its failed send and its recheck (`WrappedPushReportsClosed`);
  `RecheckOutcome` gives the exact condition.
- A packet is given back by its page if and only if it has at most 65024 bytes
  (`SegmentCountFits`, `PageReadsBackIff`), and so are all packets of a stream
  (`PacketsReadBackIff`).
- A group of Opus packets can last longer than the target although the summed whole
  milliseconds do not exceed it: the code emits ten 2.5 ms packets as one of 25 ms for a
  target of 20 (`RoundingOverrunsTarget`, `OverrunExample`). `TrueDuration` gives the exact
  excess; a group that fills the target overruns it if and only if it has a packet of an odd
  number of 2.5 ms units (`FullGroupOverrunsIff`), and without such packets no group does
  (`EvenNeverOverruns`).
- A 32-bit channel sum is exact for up to 65536 channels and no more (`ChannelSumFits`).
- The suffix that trimming leaves is itself canonical if and only if it does not begin with a
  full stop or a dash (`SuffixIsNormalIff`; "a.b" without "a" in `SuffixIsNotRenormalised`).
- Without a correlation id the closing event of an answer carries IsStart again;
  `HandleUncorrelated` says exactly when there is only one such event.
- A test device loses buffered words: all of them when new content comes, and otherwise those
  up to the last sentence separator. `AccountHoldsIff` gives the exact condition, `Outcome`
  the number of words lost, `CutAnswer` and `CutGreeting` the runs.
- A content that meets a related one held back replaces it when it has at least as many bytes
  without white space, and is dropped when it has fewer: "a！" after "abc" loses "bc", "ab" after
  "a！" loses "b" (`RepeatedAnswer` for all texts, `ShortenedAnswer` and `DroppedRepetition` at these). The words of both
  are kept if and only if the larger one has them all (`RepetitionCounts`); an answer stays
  whole after every frame if and only if that holds at each of them (`OrderlyIff`), and one that
  comes in repetitions only is whole if and only if the last of the largest has all words
  (`OneAnswerKeptIff`). The branch for contents that are only punctuation cannot be reached
  (`NeverPunctuationOnly`).
- An answer that is still held back is never heard when the stream ends with a snapshot
  without text (`SilencedAnswer`, `SilencedGreeting`); a snapshot with text replaces what has
  not been spoken. `KeepsAllIff` gives the exact condition under which a frame gives up no
  words, `DeliveredAtTheEnd` that under which a final frame leaves none undelivered, and
  `HandleAnswer` what is heard of a whole answer.
- A listener interrupted within the first sentence loses the rest of it
  (`CheckpointResumesIff`); a draft whose last, unmarked sentence was counted as heard
  changes meaning as soon as it grows (`UnfinishedGrowth`).
- A release keeps each resource in use with one holder if and only if it is refused or its
  caller holds the resource (`ReleaseKeepsLentIff`). From any other release that puts the
  resource back, acquisitions lead to two holders (`StrayPutBackShares`); a run from a new
  pool is in `DoubleReleaseSharesResource`.
- De-duplication of a parent message and the chat that speaks it works page by page: both are
  on display when a page boundary lies between them (`RepeatAcrossPages`), and also when they
  were fetched together with the chat at the head of the page, for the next page fetches it
  again (`RepeatFetchedAgain`, `AnswerTwice`). A row is on display at the end of a walk if and
  only if the last page that fetched it has no message it repeats (`DisplaysAllButRepeats`,
  ensured by `WalkOlder`).

## Model

| member | source | states |
|---|---|---|
| `QueueProtocol.StepKeepsInv` | internal/util/queue.go:73-236 | every step of any goroutine keeps: a channel is closed if and only if it is not the current one or the queue is closed, no close panics, the generation counts the clears modulo 2^64, buffers stay within capacity |
| `QueueProtocol.RunSafety` | internal/util/queue.go:73-236 | over every interleaving, that invariant and first-in-first-out delivery of each channel hold |
| `QueueProtocol.NewQueueIsSafe` | internal/util/queue.go:25-30 | a new queue satisfies the invariant and the order property |
| `QueueProtocol.StepConserves` | internal/util/queue.go:84-104 | one step keeps every value in exactly one place once its push has succeeded and nowhere otherwise |
| `QueueProtocol.EveryValueInOnePlace` | internal/util/queue.go:73-236 | in every reachable state each successfully pushed value is returned by one pop, drained by one clear, or in one buffer, and a value whose push failed or is retrying is nowhere |
| `QueueProtocol.StepKeepsOrder` | internal/util/queue.go:153-221 | what operations receive from a channel, followed by its buffer, is what was sent, in order |
| `QueueProtocol.RecheckOutcome` | internal/util/queue.go:92-103 | after a send panicked, the push ends as closed if and only if the queue is closed or the generation came round to the same number, else it retries: the fallback return is otherwise dead |
| `QueueProtocol.PushClosedMeansClosed` | internal/util/queue.go:122-145 | with fewer than 2^64 clears, a push that returned "closed" did so on a closed queue |
| `QueueProtocol.PopEnds` | internal/util/queue.go:153-201 | a pop that gets no value ends as closed exactly if the queue was closed when it began or its channel is closed and drained, unless the timer or context of a blocking one fired; only a non-blocking one ends as empty, on an open empty channel |
| `QueueProtocol.PushEnds` | internal/util/queue.go:73-145 | a push ends as done exactly when its value was sent, as given up exactly when its timer or context fired |
| `QueueProtocol.ClearEnds` | internal/util/queue.go:203-221 | a clear is refused exactly on a closed queue, else it swaps the channel and ends when that is drained |
| `QueueProtocol.CallGoesOn` | internal/util/queue.go:73-170 | a call that goes on took the current channel and generation of an open queue, found its channel closed, or begins again after a clear |
| `QueueProtocol.CallsCanMove` | internal/util/queue.go:32-64 | exactly when each channel action can happen |
| `QueueProtocol.CallsEnd` | internal/util/queue.go:73-221 | in every run each call ends in one of these ways, and stays as it ended |
| `QueueProtocol.SecondClosePanics` | internal/util/queue.go:203-236 | closing a closed channel is recorded as a panic |
| `QueueProtocol.WrappedPushReportsClosed` | internal/util/queue.go:84-104 | a concrete run of 2^64 clears in which a push reports "closed" on an open queue |
| `QueueProtocol.Queue.PushWithTimeout` | internal/util/queue.go:73-104 | without interference: the value is appended to the current channel if it is open and has room, else the error that applies; the call is a run of the machine |
| `QueueProtocol.Queue.PopNow` | internal/util/queue.go:153-201 | the oldest buffered value, or empty, or closed; only that value leaves |
| `QueueProtocol.Queue.ClearAndDrain` | internal/util/queue.go:203-221 | returns the buffered values in order, leaves a closed empty old channel and an open empty new one; nothing on a closed queue |
| `QueueProtocol.Queue.CloseQueue` | internal/util/queue.go:228-236 | closes the current channel once and keeps its buffer |
| `OggOpus.NormalizeOpusSampleRate` | internal/util/ogg_opus.go:15-31 | the loop computes the function that the next row characterises |
| `OggOpus.NormalizeRateIsNearest` | internal/util/ogg_opus.go:15-31 | for a positive rate the result is a supported rate nearest to it, the lower on a tie; supported rates are unchanged |
| `OggOpus.Lacing` | internal/util/ogg_opus.go:140-153 | n / 255 + 1 lacing values that sum to n |
| `OggOpus.LacingEnds` | internal/util/ogg_opus.go:140-153 | all lacing values but the last are 255, the last is n mod 255 |
| `OggOpus.BuildOggSegments` | internal/util/ogg_opus.go:140-153 | the countdown loop yields that lacing, and one zero for an empty or negative length |
| `OggOpus.SegmentCountFits` | internal/util/ogg_opus.go:120-138 | the count byte of a page is right if and only if the packet has at most 65024 bytes |
| `OggOpus.BuildOggPage` | internal/util/ogg_opus.go:120-138 | the page filled in place is the laid-out page, with any checksum function applied to it with a zero checksum field |
| `OggOpus.WrapOggOpusPackets` | internal/util/ogg_opus.go:78-96 | two header pages and one page per packet; the next row says what their bytes are |
| `OggFields.WrittenPage` | internal/util/ogg_opus.go:78-138 | page k at its byte offsets: flag 2 on the first, flag 4 on the last data page; granule position (i + 1) frames modulo 2^64 on data page i; sequence number k modulo 2^32; one serial number; the checksum of the page with zero in its place; lacing; the packet |
| `OggFields.GranuleCounts` | internal/util/ogg_opus.go:85-87 | the accumulated granule position is the product, modulo 2^64 |
| `OggFields.HeadBytes` | internal/util/ogg_opus.go:98-108 | the identification header byte by byte, as section 5.1 of RFC 7845 lays it out |
| `OggFields.TagsBytes` | internal/util/ogg_opus.go:110-118 | the comment header byte by byte |
| `OggOpus.Uint32RoundTrip` | internal/util/ogg_opus.go:98-108 | reading back four little-endian bytes gives the number |
| `OggOpus.ParsePage` | internal/util/audio_utils.go:862-909 | an accepted page is well formed and consumes input; the next row says which inputs are accepted |
| `OggRoundTrip.AcceptedInputs` | internal/util/audio_utils.go:862-909 | accepted are exactly the inputs that begin with a page of version 0 with at most 255 lacing values and a complete body, whatever the other header fields |
| `OggReading.RefusedFor` | internal/util/audio_utils.go:862-909 | which error each refused input gets |
| `OggReading.OrphanRefused` | internal/util/audio_utils.go:781-790 | a page that continues no open packet is refused, another one never for that reason |
| `OggReading.HeadAccepted` | internal/util/audio_utils.go:838-860 | accepted if and only if it has 19 bytes and the magic text; at least one channel, nearest supported rate |
| `OggReading.FallbackUnused` | internal/util/audio_utils.go:744-761 | the defaults of Prepare are dead: every accepted head gives a rate and channels |
| `OggReading.HandleOutcome` | internal/util/audio_utils.go:817-837 | head, comments, then non-empty data packets, each with its error |
| `OggOpus.PacketReader.HandlePacket` | internal/util/audio_utils.go:817-837 | the header state machine: head, tags, then non-empty data packets |
| `OggOpus.PacketReader.ReadNextPage` | internal/util/audio_utils.go:781-815 | one page: continuation check, packets completed by it, carry kept for the next; all errors |
| `OggOpus.PacketReader.Prepare` | internal/util/audio_utils.go:744-761 | reads pages until both headers were seen, with defaults for missing values, or the error that applies |
| `OggOpus.PacketReader.NextPacket` | internal/util/audio_utils.go:763-779 | the next queued packet, or end of file, or unexpected end when a packet is unfinished |
| `OggRoundTrip.ReadAll` | internal/util/audio_utils.go:744-779 | preparing and then reading to the end delivers what the reader's functions define |
| `OggRoundTrip.FinishPages` | internal/util/audio_utils.go:763-837 | reading any well-continued pages equals splitting the concatenated lacing values and bytes into packets, from any reader state |
| `OggRoundTrip.PageCutsDoNotMatter` | internal/util/audio_utils.go:763-837 | two page cuts of the same lacing values and bytes give the same outcome; it ends with end of file if and only if no packet and no page is unfinished |
| `OggRoundTrip.TruncatedPageIsCutOff` | internal/util/audio_utils.go:862-909 | every proper prefix of a page counts as a cut-off page |
| `OggRoundTrip.LacedOnePacket` | internal/util/ogg_opus.go:140-153 | the reader's splitting undoes the writer's lacing, for every packet |
| `OggRoundTrip.WriterReaderRoundTrip` | internal/util/ogg_opus.go:78-153 | reading back written packets of at most 65024 bytes gives exactly the non-empty ones in order, the channel count and the normalised rate, then end of file |
| `OggRoundTrip.WrapThenRead` | internal/util/ogg_opus.go:78-96 | the same of the two programs run one after the other, with the rate unchanged for supported rates |
| `OggOversize.PageReadsBackIff` | internal/util/ogg_opus.go:120-153 | the page of a packet gives the packet back if and only if it has at most 65024 bytes, whatever follows |
| `OggOversize.DrainCost` | internal/util/audio_utils.go:763-815 | on every input the delivered packets, their lacing values and the page headers these need are paid for by input bytes |
| `OggOversize.PacketsReadBackIff` | internal/util/ogg_opus.go:78-153 | written and read back, a list of packets gives exactly the non-empty ones in order if and only if each has at most 65024 bytes, whatever they hold |
| `OggOversize.OversizedIsNotNext` | internal/util/audio_utils.go:763-909 | a longer packet is not the next one delivered, whatever it holds and whatever follows its page |
| `OpusDurations.SamplesMatchTable` | internal/util/audio_utils.go:688-704 | samples per frame agree with the frame lengths of section 3.1 of RFC 6716 for every TOC byte and supported rate |
| `OpusDurations.DurationIsRoundedTicks` | internal/util/audio_utils.go:671-686 | the duration in milliseconds is the true duration rounded down, at every supported rate |
| `OpusDurations.PackedFrames` | internal/util/audio_utils.go:706-723 | a packet packed from n frames by any code of section 3.2 of RFC 6716 is counted as n frames of the length its configuration has |
| `OpusDurations.CountFailsIff` | internal/util/audio_utils.go:706-723 | counting fails exactly on a packet that ends before its count |
| `OpusDurations.SameTocBits` | internal/util/audio_utils.go:573-574 | the bits compared agree if and only if configuration and stereo flag do |
| `OpusDurations.DefaultRate` | internal/util/audio_utils.go:671-686 | a rate that is not positive counts as 48000, another one is used as it is |
| `OpusRepacketizing.Regrouper.AppendPacket` | internal/util/audio_utils.go:553-584 | one packet: fails exactly on an unusable packet, else takes the regrouping step |
| `OpusRepacketizing.RegroupKeepsGrouping` | internal/util/audio_utils.go:553-584 | a step keeps: groups hold the packets so far in order, share their TOC bits, stay within the target, and each was cut only where it had to be |
| `OpusRepacketizing.Repacketize` | internal/util/audio_utils.go:505-609 | succeeds if and only if the target is positive and every packet is usable, and emits the frames of such a grouping of the non-empty packets |
| `OpusRepacketizing.GroupingIsUnique` | internal/util/audio_utils.go:505-609 | that description determines the groups |
| `OpusRepacketizing.CutsIff` | internal/util/audio_utils.go:573-584 | a packet starts a new group if and only if it does not fit the open one |
| `OpusRepacketizing.FramesConserved` | internal/util/audio_utils.go:505-609 | the emitted frames concatenate to the frames of the input |
| `OpusRepacketizing.TrueDuration` | internal/util/audio_utils.go:671-686 | a group's true duration exceeds the summed milliseconds by half a millisecond per packet of odd length |
| `OpusRepacketizing.FullGroupOverrunsIff` | internal/util/audio_utils.go:553-584 | a group whose summed milliseconds fill the target lasts longer if and only if it has a packet of odd length |
| `OpusRepacketizing.EvenNeverOverruns` | internal/util/audio_utils.go:505-609 | of a stream without such packets no emitted group is longer than the target |
| `OpusRepacketizing.RoundingOverrunsTarget` | internal/util/audio_utils.go:671-686 | ten packets of 2.5 ms are one group for a 20 ms target, and the only grouping, and last 25 ms |
| `OpusRepacketizing.OverrunExample` | internal/util/audio_utils.go:505-609 | the code emits them as one packet |
| `WavFraming.ChannelSumFits` | internal/util/audio_utils.go:1078-1083 | the channel sum fits 32 bits for all samples if and only if there are at most 65536 channels |
| `WavFraming.SampleRoundTrip` | internal/util/audio_utils.go:1078-1083 | reading the two little-endian bytes of a sample gives that sample |
| `WavFraming.PointsDecoded` | internal/util/audio_utils.go:1073-1087 | a written stream of interleaved points decodes to the averages of its points |
| `WavFraming.AverageIsMean` | internal/util/audio_utils.go:1085-1087 | the average is the mean of the samples, rounded toward zero |
| `WavFraming.Downmix` | internal/util/audio_utils.go:1078-1086 | the loop's average is the truncated mean of the point's samples, which fits 16 bits |
| `WavFraming.Framer.PutRead` | internal/util/audio_utils.go:1050-1134 | one read of any size: what has been sent plus what is pending, followed by any further bytes, is unchanged |
| `WavFraming.RunWavDecoder` | internal/util/audio_utils.go:989-1149 | for every chunking of the byte stream the frames are the downmixed whole samples cut into frames, the last padded with zeros |
| `WavFraming.FramesSpellSamples` | internal/util/audio_utils.go:996-1042 | all frames have the frame size and join to the samples followed by fewer than one frame of zeros |
| `OpenClawText.NormalizeSpeechText` | internal/domain/openclaw/manager.go:1170-1233 | the loop over `out` computes the canonical form |
| `OpenClawText.NormalizeIsNormal` | internal/domain/openclaw/manager.go:1170-1279 | every result is trimmed and canonical: no rune that either pass would change |
| `OpenClawText.NormalizeIdempotent` | internal/domain/openclaw/manager.go:1170-1279 | idempotent on every text, and the fixed points are exactly the canonical texts |
| `OpenClawText.CutsetAtStart` | internal/domain/openclaw/manager.go:1262-1265 | the left trim of separators never removes anything from what the loop makes |
| `OpenClawText.ComparableKey` | internal/domain/openclaw/manager.go:1125-1143 | the filtered runes of the canonical form |
| `OpenClawText.WalkPrefix` | internal/domain/openclaw/manager.go:1067-1092 | if the prefix's key begins the text's key, neither failure return is reached and the key splits without loss |
| `OpenClawText.TrimCanonicalPrefix` | internal/domain/openclaw/manager.go:1046-1092 | succeeds if and only if the prefix's key begins the text's key, and then key(text) = key(prefix) + key(suffix) |
| `OpenClawText.SuffixIsNormalIff` | internal/domain/openclaw/manager.go:1046-1092 | a suffix cut from a canonical text is canonical if and only if it does not begin with a full stop or a dash |
| `OpenClawText.SuffixIsNotRenormalised` | internal/domain/openclaw/manager.go:1046-1092 | trimming "a" off "a.b" leaves ".b", whose canonical form is "b" |
| `OpenClawWords.WordsNormalize` | internal/domain/openclaw/manager.go:1170-1279 | the canonicaliser neither loses nor invents a word rune, on every text |
| `OpenClawWords.PlainNormalize` | internal/domain/openclaw/manager.go:1125-1233 | texts without full stop, dash or markup stay so, and are compared by their words alone |
| `OpenClawWords.KeySplit` | internal/domain/openclaw/manager.go:1046-1092 | splitting a key splits the words |
| `OpenClawWords.HeardIsNotEmptied` | internal/domain/openclaw/manager.go:1170-1233 | a text whose first rune is kept is never emptied |
| `OpenClawJoints.BreakIsPause` | internal/domain/openclaw/manager.go:1170-1233 | after a word, before another one or at the end, a line break, list item or table bar becomes a pause |
| `OpenClawJoints.CommaStays` | internal/domain/openclaw/manager.go:1160-1233 | commas of any kind become the full-width one |
| `OpenClawJoints.BlankStays` | internal/domain/openclaw/manager.go:1170-1233 | a blank or tab becomes a blank |
| `OpenClawJoints.ColonStays` | internal/domain/openclaw/manager.go:1170-1233 | a colon of either kind becomes the full-width one |
| `OpenClawJoints.MarkStays` | internal/domain/openclaw/manager.go:1170-1233 | sentence marks, hyphens and bullets stay |
| `OpenClawJoints.MarkupGoes` | internal/domain/openclaw/manager.go:1170-1233 | carriage returns and markup go, and join the words |
| `OpenClawJoints.EmphasisGoes` | internal/domain/openclaw/manager.go:1170-1233 | so do single emphasis marks |
| `OpenClawJoints.LeadingGoes` | internal/domain/openclaw/manager.go:1170-1233 | before the first word every separator, mark, hyphen and blank goes |
| `OpenClawJoints.LeadingMarkupGoes` | internal/domain/openclaw/manager.go:1170-1233 | and so do line breaks, tabs, list items and markup |
| `OpenClawJoints.TrailingBlankGoes` | internal/domain/openclaw/manager.go:1170-1279 | behind the last word a blank or tab goes |
| `OpenClawJoints.ParenBlankGoes` | internal/domain/openclaw/manager.go:1262-1279 | a blank inside a parenthesis goes |
| `OpenClawJoints.NoBlankBeforeMark` | internal/domain/openclaw/manager.go:1262-1279 | the other pairs of the second replacer never occur in what the loop makes |
| `OpenClawPieces.PiecesMean` | internal/domain/openclaw/manager.go:1015-1044 | the pieces that `Cut` trims are the whole text in order, cut behind every separator and nowhere else |
| `OpenClawPieces.DelimitersGo` | internal/domain/openclaw/manager.go:1262-1279 | blanks and commas before a piece do not change its segment, so skipping them is harmless |
| `OpenClawSentences.ExtractSentences` | internal/domain/openclaw/manager.go:1015-1044 | the sentences are exactly the trimmed pieces of the canonical text that have text, and the rest is what follows the last separator; there is a sentence exactly when there is a separator; sentences hold the words up to the last one |
| `OpenClawStream.IsCanonicalGrowth` | internal/domain/openclaw/manager.go:1094-1101 | true if and only if both keys are non-empty and one begins the other |
| `OpenClawStream.NeverPunctuationOnly` | internal/domain/openclaw/manager.go:1145-1159 | no canonical text is punctuation only, so the branch that tests it is dead |
| `OpenClawStream.ResponseStream.ToIncrementalContent` | internal/domain/openclaw/manager.go:789-859 | in every branch the words delivered, buffered, handed on and held back are those the frame's content calls for; at the end nothing is held back |
| `OpenClawStream.ResponseStream.ApplySnapshotContent` | internal/domain/openclaw/manager.go:861-883 | the buffer becomes exactly what the snapshot adds to the text delivered: its end behind that text if it repeats it, all of it if not |
| `OpenClawStream.ResponseStream.EmitSentences` | internal/domain/openclaw/manager.go:750-758 | each sentence becomes one event, bracketed, and is noted as delivered |
| `OpenClawStream.ResponseStream.HandleFrame` | internal/domain/openclaw/manager.go:580-787 | stale frames change nothing; others send bracketed events, and the words delivered, buffered and held back are those the frame calls for, less the words lost by a test device, which are named; the texts sent for a content are, in order, exactly the sentences of the buffer with the new part, and at the end its rest (a test device gets the new part itself), and after a snapshot exactly what it adds, at the end |
| `OpenClawStream.AccountHoldsIff` | internal/domain/openclaw/manager.go:674-741 | the words add up if and only if the device is ordinary, the frame is a snapshot, the buffer has no words, or nothing is new and no words are cut from the buffer |
| `OpenClawStream.DoneMeans` | internal/domain/openclaw/manager.go:528-537 | a frame ends the answer if and only if it says so or has nothing of a stream about it |
| `OpenClawStream.TestDeviceMeans` | internal/domain/openclaw/manager.go:53-55 | a test device is one whose trimmed name begins with the 18 runes of the prefix |
| `OpenClawStream.ByteLengthEncodes` | internal/domain/openclaw/manager.go:834-836 | the length compared is that of the UTF-8 encoding |
| `Utf8.EncodeRoundTrip` | internal/domain/openclaw/manager.go:834-836 | the encoding decodes to the code point, with as many bytes as its first byte announces |
| `OpenClawStream.SpaceFreeMeans` | internal/domain/openclaw/manager.go:1109-1123 | the canonical key leaves out white space and nothing else |
| `OpenClawStream.SpaceFreeAppend` | internal/domain/openclaw/manager.go:1109-1123 | wherever that stands |
| `OpenClawStream.RepetitionCounts` | internal/domain/openclaw/manager.go:833-843 | when a content meets a related one held back, the words of both are kept if and only if the one larger in bytes has them all |
| `OpenClawStream.SnapshotKeepsIff` | internal/domain/openclaw/manager.go:861-883 | a snapshot gives up no words if and only if it repeats what it replaces |
| `OpenClawStream.KeepsAllIff` | internal/domain/openclaw/manager.go:789-883 | any frame keeps its own words and those from before if and only if one of these conditions holds, or it is of another kind |
| `OpenClawStream.DeliveredAtTheEnd` | internal/domain/openclaw/manager.go:580-787 | at a final frame every word taken in, the frame's own included, has been delivered if and only if the frame keeps all words and is not a snapshot without text while words are held back |
| `OpenClawExamples.CutAnswer` | internal/domain/openclaw/manager.go:674-741 | for every text, a snapshot to a test device and an end without new content lose the words up to the last separator |
| `OpenClawExamples.CutGreeting` | internal/domain/openclaw/manager.go:674-741 | the same at one text: its first sentence is lost |
| `OpenClawExamples.PlainResponse` | internal/domain/openclaw/manager.go:528-787 | for every text: a response without streaming metadata is spoken whole, sentence by sentence and then the rest, its last event ends it, and neither stream nor pending request remains |
| `OpenClawExamples.GreetingSent` | internal/domain/openclaw/manager.go:1015-1044 | at "你好。再见": two events, "你好。" and "再见", the second of which ends the answer |
| `OpenClawExamples.RepeatedAnswer` | internal/domain/openclaw/manager.go:833-843 | for all related texts: of two contents the one larger in bytes is heard, whichever has more words |
| `OpenClawExamples.ShortenedAnswer` | internal/domain/openclaw/manager.go:833-843 | the same at "a！" after "abc": only "a" is heard |
| `OpenClawExamples.DroppedRepetition` | internal/domain/openclaw/manager.go:833-843 | the same at "ab" after "a！": only "a" is heard |
| `OpenClawExamples.SilencedAnswer` | internal/domain/openclaw/manager.go:861-869 | every answer held back and ended by an empty snapshot is never heard by an ordinary device |
| `OpenClawExamples.SilencedGreeting` | internal/domain/openclaw/manager.go:861-869 | the same at one answer |
| `OpenClawSession.HandleUncorrelated` | internal/domain/openclaw/manager.go:605-781 | without correlation id: the texts sent are the sentences of the canonical text and its rest (a test device gets it in one), IsEnd on the last event only, IsStart on the first and the last, which are one exactly for a test device or a text without separator |
| `OpenClawSession.OrderlyIff` | internal/domain/openclaw/manager.go:789-859 | the answer kept is the answer meant after every frame if and only if each content that meets one held back has the more words exactly when it is the larger |
| `OpenClawSession.OneAnswerKeptIff` | internal/domain/openclaw/manager.go:833-843 | an answer that comes in contents that repeat each other is kept whole if and only if the last of the largest has the words of all |
| `OpenClawSession.GistStep` | internal/domain/openclaw/manager.go:789-883 | one frame, on any plain book: the words and what is held back are those of the answer kept |
| `OpenClawSession.RoutedIff` | internal/domain/openclaw/manager.go:548-578 | a frame is routed if and only if the pending request names a device, or it or a frame before it does |
| `OpenClawSession.AgentSession.Route` | internal/domain/openclaw/manager.go:548-563 | the device named by the frame, else that of the stream, else that of the pending request |
| `OpenClawSession.AgentSession.HandleResponse` | internal/domain/openclaw/manager.go:516-787 | the frame goes where Route says, and the stream remembers the first such device; a routed frame is accepted unless its positive number is stale; one that is done or has no streaming metadata ends the answer with its last event and removes stream and request, another one does neither; the texts sent are those that HandleFrame names; streams and pending routes of other correlation ids are untouched |
| `OpenClawSession.FrameTaken` | internal/domain/openclaw/manager.go:580-787 | one accepted frame keeps bracketing, increasing numbers and the word account of the answer |
| `OpenClawSession.AgentSession.HandleAnswer` | internal/domain/openclaw/manager.go:516-787 | over every frame sequence: accepted are the routed frames in sequence up to the first final one, and events go to their devices only; IsStart once on the first event, IsEnd once on the last of a finished answer, accepted positive numbers strictly increase; of plain frames whose snapshots repeat the answer an ordinary device hears the answer kept, which is the answer meant if the frames are orderly, or nothing exactly when it is silenced |
| `StorySentences.ScanAppend` | internal/domain/story/segment.go:9-35 | splitting a concatenation is splitting the parts with the open sentence carried over |
| `StorySentences.SplitSentences` | internal/domain/story/segment.go:9-35 | the loop computes the sentence list, with the whole text as fallback proved unnecessary |
| `StorySentences.MarkSplits` | internal/domain/story/segment.go:9-75 | each of the six marks between two texts ends a sentence, and no other rune does |
| `StorySentences.SentenceBuffer.Append` | internal/domain/story/sentence_buffer.go:10-36 | returns the sentences finished by the chunk and keeps the rest |
| `StorySentences.FeedAll` | internal/domain/story/sentence_buffer.go:10-42 | for every split of a text into chunks, Append results and a non-empty Flush equal the batch split |
| `StorySentences.SentencesOfTrimmed` | internal/domain/story/segment.go:9-35 | trimming a text does not change its sentences |
| `StorySentences.SentencesSpoken` | internal/domain/story/segment.go:9-35 | sentences are non-empty and trimmed |
| `StoryPlayback.SegmentText` | internal/domain/story/segment.go:38-64 | the loop groups sentences by three |
| `StoryPlayback.SegmentsKeepText` | internal/domain/story/segment.go:38-64 | segments join to the same text as the sentences |
| `StoryPlayback.OffsetInSegment` | internal/domain/story/segment.go:112-134 | the segment found for an offset is the one whose character range holds it |
| `StoryPlayback.OffsetOutside` | internal/domain/story/segment.go:112-125 | an offset behind the text belongs to the last segment |
| `StoryPlayback.ComputePlayPosition` | internal/domain/story/segment.go:136-166 | the loops compute the position that the resume lemmas are about |
| `StoryPlayback.PositionMeans` | internal/domain/story/segment.go:136-166 | the position counts the runes heard, and names the last sentence heard whole, else the first |
| `StoryPlayback.SpokenTextPrefix` | internal/domain/story/draft_playback.go:6-42 | the branches and the offset scan compute the spoken prefix |
| `StoryPlayback.FirstUnspokenSentenceIndex` | internal/domain/story/draft_playback.go:44-71 | the offset scan computes the first sentence to play |
| `StoryPlayback.FirstReachingBounds` | internal/domain/story/draft_playback.go:44-72 | without a sentence index the draft resumes at the first sentence at which the offset is reached |
| `StoryPlayback.DraftMeans` | internal/domain/story/draft_playback.go:44-84 | the draft is what follows the first unspoken sentence, all of it for a record without position |
| `StoryPlayback.SpokenPrefixMeans` | internal/domain/story/draft_playback.go:6-43 | without a usable index the spoken prefix is the longest run of whole sentences within the offset |
| `StoryPlayback.HeardCountBounds` | internal/domain/story/segment.go:136-166 | the heard count is the largest number of whole sentences within the heard length |
| `StoryPlayback.CheckpointResumesIff` | internal/domain/story/segment.go:136-166 | saving the position of any heard text and resuming plays exactly the sentences not wholly heard if and only if at least one was |
| `StoryPlayback.ListenAdvances` | internal/domain/story/service.go:326-346 | a session that plays k sentences moves the position by exactly k |
| `StoryPlayback.HeardJoins` | internal/domain/story/draft_playback.go:90-102 | heard text is joined without white space between, whichever part is blank |
| `StoryPlayback.MergeExtends` | internal/domain/story/service.go:204-217 | the merged text is trimmed and extends the trimmed draft |
| `StoryPlayback.MergeAdds` | internal/domain/story/service.go:205-217 | the merged text ends with the trimmed addition; where the base does not begin it, the rest after the base is exactly the addition |
| `StoryPlayback.GrownSentences` | internal/domain/story/service.go:205-217 | the grown text has the finished sentences of the base, then those of its open rest joined with the new text |
| `StoryPlayback.FencesGo` | internal/domain/story/service.go:648-653 | a text comes out of code fences at either end |
| `StoryPlayback.GrowthKeepsFinished` | internal/domain/story/service.go:204-217 | growing a text keeps all its finished sentences |
| `StoryPlayback.GrowKeepsPosition` | internal/domain/story/service.go:204-217 | a saved position before the last sentence, or at a marked end, means the same after growth |
| `StoryPlayback.UnfinishedGrowth` | internal/domain/story/service.go:204-217 | a position after an unmarked last sentence keeps its meaning if and only if the text did not grow |
| `StoryPlayback.RunPlaysInOrder` | internal/domain/story/service.go:306-346 | over any number of rounds of listening, interruption and growth the sentences played are the next ones of the final text, none repeated or skipped, the spoken prefix is what was heard, and the final text holds every addition |
| `StoryStore.KeysDistinct` | internal/domain/story/store.go:239-247 | composed keys collide only for the same device and id |
| `StoryStore.ZRevRange` | internal/domain/story/store.go:101-119 | the highest-scored members in falling order |
| `StoryStore.RetentionGrows` | internal/domain/story/retention.go:5-14 | retention starts at the minimum, each play adds two days and each completion three, up to the maximum |
| `StoryStore.EvictionMeans` | internal/domain/story/retention.go:16-23 | a story of an unfinished series is never due, another one exactly after its retention, and then for good |
| `StoryStore.RanksMean` | internal/domain/story/store.go:269-283 | what the two indexes rank by |
| `StoryStore.StampedMeans` | internal/domain/story/store.go:249-263 | saving fills in what is missing, nothing else, and only once |
| `StoryStore.CountersCount` | internal/domain/story/store.go:298-323 | over any events: the counters count plays, completions and suggestions; status, position and time are those of the last event that sets them; nothing else changes |
| `StoryStore.Store.Save` | internal/domain/story/store.go:249-285 | record and both indexes agree afterwards; of the 201 most recently played stories exactly the due ones go, the saved one included; other stories are unchanged |
| `StoryStore.Store.EvictExpired` | internal/domain/story/store.go:462-479 | of the 201 most recently played stories exactly the due ones go, from all three places, so a device with at most 201 stories keeps no due one |
| `StoryStore.Store.UpdateProgress` | internal/domain/story/store.go:299-312 | a missing story is reported; else its position, status and counts are saved |
| `StoryStore.Store.RecordPlayStart` | internal/domain/story/store.go:314-324 | the same for the start of a playback |
| `StoryStore.Store.MarkSuggestShown` | internal/domain/story/store.go:517-524 | the same for the suggestion counter |
| `StoryStore.Store.Run` | internal/domain/story/store.go:249-324 | after any sequence of operations, by-time members, by-replay members and stored records of each device are one id set with the scores of the records |
| `StoryStore.Store.GetLast` | internal/domain/story/store.go:366-376 | a stored record with the greatest last-played second, none only if there is no story |
| `ResourcePool.StepKeepsInv` | internal/util/resource_pool.go:156-297 | every step keeps: each entry not in use is in exactly one place, closes happen once and never to a tracked resource, size and idle bounds |
| `ResourcePool.PoolSafety` | internal/util/resource_pool.go:130-297 | that holds in every reachable state, and tracked = idle + in use + being acquired + being cleaned |
| `ResourcePool.ChannelHasRoom` | internal/util/resource_pool.go:273-281 | putting an entry back never finds the channel full |
| `ResourcePool.ReleaseOutcome` | internal/util/resource_pool.go:234-282 | nothing for a resource not in use; else it goes to the back of the channel if valid and fewer than MaxIdle are there, and is closed and forgotten if not |
| `ResourcePool.HandedOut` | internal/util/resource_pool.go:190-231 | a resource handed out is in use from now on, and its caller holds it |
| `ResourcePool.OneHolderFromStart` | internal/util/resource_pool.go:156-282 | if every release is refused or made by the holder, the resources in use are exactly the held ones and none has two holders, in every run |
| `ResourcePool.ReleaseKeepsLentIff` | internal/util/resource_pool.go:234-282 | a release keeps that if and only if it is refused or its caller holds the resource |
| `ResourcePool.StrayPutBackShares` | internal/util/resource_pool.go:156-282 | from any state in which another caller puts a resource back, acquisitions alone lead to two holders |
| `ResourcePool.DoubleReleaseSharesResource` | internal/util/resource_pool.go:234-282 | a run with a double release after which two callers hold one resource |
| `ResourcePool.Pool.constructor` | internal/util/resource_pool.go:80-148 | MinSize idle entries and the invariant; if the factory fails before, a closed pool that has closed exactly what was created |
| `ResourcePool.Pool.Close` | internal/util/resource_pool.go:415-446 | closes every tracked resource once, the idle ones first; a second call does nothing |
| `ResourcePool.Pool.Acquire` | internal/util/resource_pool.go:156-206 | without interference: a run of the machine that hands out a new entry or the first idle one that passes its checks, or finds nothing idle and the pool full or the factory failing; exactly the idle entries before it were closed, and each had failed a check |
| `ResourcePool.Pool.ReleaseResource` | internal/util/resource_pool.go:234-282 | accepts exactly tracked resources in use; puts back or destroys |
| `ResourcePool.Leading` | internal/util/resource_pool.go:391-405 | how many entries at the head have expired, up to the first that has not |
| `ResourcePool.DestroyAllResult` | internal/util/resource_pool.go:284-297 | destroying several resources closes and forgets exactly these |
| `ResourcePool.CleanedMeans` | internal/util/resource_pool.go:380-412 | the expired entries at the head are closed and forgotten, the next one goes to the end of the others, the rest stays |
| `ResourcePool.Pool.CleanupIdle` | internal/util/resource_pool.go:380-412 | closes the expired entries at the head, moves the next one to the back, and is a run of the machine |
| `ConversationDedupe.FindNearest` | manager/backend/controllers/conversation_record_service.go:320-332 | the first of the references closest in time |
| `ConversationDedupe.IndexParents` | manager/backend/controllers/conversation_record_service.go:285-302 | the map holds exactly the non-empty lists of text messages by trimmed text, in order |
| `ConversationDedupe.KindsMean` | manager/backend/controllers/conversation_record_service.go:285-332 | what counts as a text message, as a chat that may repeat one, and as the time of a message |
| `ConversationDedupe.MatchChats` | manager/backend/controllers/conversation_record_service.go:307-344 | the chats to hide are those that repeat a message, and each message gets the first of its closest recordings, or none |
| `ConversationDedupe.Dedupe` | manager/backend/controllers/conversation_record_service.go:285-360 | the page without hidden chats, in order, each message with its recording, nothing else changed |
| `ConversationDedupe.HiddenMeansRepeats` | manager/backend/controllers/conversation_record_service.go:346-350 | a chat is hidden if and only if it repeats a text message of the same page |
| `ConversationDedupe.NothingIsLost` | manager/backend/controllers/conversation_record_service.go:285-360 | every record is shown, or a shown message has its text |
| `ConversationDedupe.SomethingIsShown` | manager/backend/controllers/conversation_record_service.go:285-360 | a page with rows shows at least one item |
| `ConversationPages.SortedWhere` | manager/backend/controllers/conversation_record_service.go:125-155 | filtering and sorting commute |
| `ConversationPages.TimelineOrder` | manager/backend/controllers/conversation_record_service.go:125-155 | the order is strict and total: time, then chats before messages, then number |
| `ConversationPages.WindowsMean` | manager/backend/controllers/conversation_record_service.go:125-160 | before and after a cursor are complementary but for the cursor itself, a day has 24 hours |
| `ConversationPages.ItemMeans` | manager/backend/controllers/conversation_record_service.go:87-108 | an item keeps the fields of its row; its text is the decrypted one if that succeeds |
| `ConversationPages.OlderPage` | manager/backend/controllers/conversation_record_service.go:141-180 | a page looking back is the last rows before the cursor, at most the limit, oldest first |
| `ConversationPages.NewerPage` | manager/backend/controllers/conversation_record_service.go:126-140 | a page looking forward or of a day is the first rows of its window |
| `ConversationPages.NormalizeLimit` | manager/backend/controllers/conversation_record_service.go:61-69 | between 1 and 100, unchanged within that range |
| `ConversationPages.ReverseInPlace` | manager/backend/controllers/conversation_record_service.go:175-180 | the rows in reverse order |
| `ConversationPages.ListRecords` | manager/backend/controllers/conversation_record_service.go:110-205 | the de-duplicated page, and has_older and has_newer exactly when such rows exist |
| `ConversationWalk.WalkOlder` | manager/frontend/src/views/admin/DeviceConversationRecords.vue:125-165 | walking older pages by the oldest item's cursor ends, shows no record twice or out of order and misses none; at the end a row is on display if and only if the last page that fetched it has no message it repeats; without repeated texts the pages make up the whole timeline |
| `ConversationWalk.TellNext` | manager/frontend/src/views/admin/DeviceConversationRecords.vue:125-165 | one more page settles exactly the rows that no later page will fetch |
| `ConversationWalk.RepeatAcrossPages` | manager/backend/controllers/conversation_record_service.go:285-360 | with pages of one row a chat and the message it repeats are both on display |
| `ConversationWalk.RepeatFetchedAgain` | manager/backend/controllers/conversation_record_service.go:285-360 | a chat fetched together with the message it repeats, and again on the next page, is on display if and only if that page has no message it repeats |
| `ConversationWalk.AnswerTwice` | manager/backend/controllers/conversation_record_service.go:285-360 | the same at three rows |
| `ToolNames.SanitizeName` | internal/domain/mcp/tool_name.go:11-44 | the loop computes the sanitised name |
| `ToolNames.SanitizeResult` | internal/domain/mcp/tool_name.go:11-44 | empty exactly for blank names, else 1 to 64 allowed characters; valid names are unchanged |
| `ToolNames.SanitizeMeans` | internal/domain/mcp/tool_name.go:11-43 | a name without letters and digits is named after its hash, another one keeps its allowed characters |
| `ToolNames.RunBecomesOne` | internal/domain/mcp/tool_name.go:20-37 | allowed characters stay, and a run of others becomes one underscore |
| `ToolNames.TrimPunctParts` | internal/domain/mcp/tool_name.go:39-66 | trimming takes underscores and hyphens off both ends, and nothing else |
| `ToolNames.AllowedCodes` | internal/domain/mcp/tool_name.go:91-97 | the allowed characters by their ASCII codes |
| `ToolNames.TruncateResult` | internal/domain/mcp/tool_name.go:99-115 | truncation gives a valid name for any hash of 8 hex digits |
| `ToolNames.TruncateMeans` | internal/domain/mcp/tool_name.go:99-115 | a long name keeps what fits before the hash of the original |
| `ToolNames.RetriesDiffer` | internal/domain/mcp/tool_name.go:46-89 | retry candidates with different numbers differ |
| `ToolNames.RetryMeans` | internal/domain/mcp/tool_name.go:64-88 | the names of the loop: what fits of the base, the hash, and from the second one on its number |
| `ToolNames.AttemptsMean` | internal/domain/mcp/tool_name.go:46-88 | the candidate comes first, or one after the hash if there is none |
| `ToolNames.FewFailures` | internal/domain/mcp/tool_name.go:46-89 | at most one more candidate than there are used names can fail |
| `ToolNames.UniqueName` | internal/domain/mcp/tool_name.go:46-89 | ends within the number of used names plus two tries with the first candidate that is unused or already this tool's |
| `ToolNames.AllotNames` | internal/domain/mcp/global_manage.go:541-580 | every tool with a name gets a valid LLM name, and two tools share one if and only if their names are equal |
| `ToolsRefresh.RefreshSafety` | internal/domain/mcp/global_manage.go:351-390 | in every interleaving: never two runners, never more refreshes than requests; with no runner left every request was followed by a refresh that began after it, all ended, and the recorded error is the last one's |
| `ToolsRefresh.QuietRuns` | internal/domain/mcp/global_manage.go:364-390 | no run without new requests is longer than an exact number of steps, and it leaves no runner exactly when it has that many |
| `ToolsRefresh.RunnerComesToRest` | internal/domain/mcp/global_manage.go:364-390 | whatever the outcomes of its refreshes, the runner can take all these steps, and then all requests are served |
| `ToolsRefresh.Connection.Schedule` | internal/domain/mcp/global_manage.go:351-362 | starts a runner exactly when none is active, else leaves a note |
| `ToolsRefresh.Connection.Record` | internal/domain/mcp/global_manage.go:373-388 | repeats exactly when a note was left; when it stops all requests are served |
| `ToolsRefresh.Connection.RunScheduled` | internal/domain/mcp/global_manage.go:364-390 | refreshes until the first one during which nobody asked |

## Left out

- Clocks, timers, contexts, validity checks, factories and the outcome of a refresh are
  parameters or free choices of a step; logging is dropped.
- Codecs, the repacketizer's C body, resampling, Opus output of the WAV decoder, hashes and the page checksum: the
  repacketizer is a frame sequence, hashes and the checksum are arbitrary functions.
- JSON, metadata maps, Redis, SQL and HTTP: the store's JSON is the identity, a query is
  filter, sort and take, metadata of a frame is already read.
- Texts are sequences of runes; invalid UTF-8 is not modelled. Times and durations are
  unbounded integers, and index scores are integers rather than float64.
- Queue.PushWithTimeout, Queue.PopNow, Queue.ClearAndDrain: state the call without interference; what other goroutines do meanwhile is covered by the state machine and its run lemmas.
- PushClosedMeansClosed: assumes fewer than 2^64 clears, because the generation counter wraps (WrappedPushReportsClosed).
- WriterReaderRoundTrip: packets of at most 65024 bytes and 1 to 255 channels, the range in which the count and channel bytes can hold them; PacketsReadBackIff states the converse for the lengths.
- RunWavDecoder: requires a positive frame size and at most 65536 channels; cancellation and read errors other than end of file are not modelled.
- Repacketize: cancellation and errors of the C library other than a packet it refuses are not modelled, in particular its limit of 120 ms for one packet.
- HandleAnswer: delivery online or to the offline queue is one event; the correlation id is taken as trimmed. What is heard of a whole answer is stated for contents without full stop, dash or markup and for snapshots without words or that repeat the answer kept; HandleFrame, KeepsAllIff and DeliveredAtTheEnd state it for every frame.
- CheckpointResumesIff: positions come from ComputePlayPosition; negative sentence indexes with an offset inside a sentence, and the all-zero position, are not checkpoints.
- Store.Save: story ids are non-empty, without colon and different from the index names; Store.EvictExpired removes expired stories among the 201 newest only, as the source does.
- Pool.Acquire: states the call without interference; whether the factory can create is one answer for the whole call. Closing is modelled on a pool with no acquisition under way.
- Pool.constructor: takes a configuration that passes the checks of NewResourcePool; that the source then returns no pool when the factory fails is the field `shut`.
- Pool: the factory never returns the same resource twice, for a resource is named by the number of its creation.
- ListRecords: cursors name one of the two record types; failing database queries are not modelled.
- UniqueName: candidates are ASCII, as sanitising leaves them, so bytes and runes coincide; a nil map is not passed.
- AllotNames: fewer than 2^63 tools, so that the retry counter does not overflow.
- RunScheduled: requests arrive while a refresh runs, and at some point a refresh passes without any; the failed-connect path that resets the flags (internal/domain/mcp/global_manage.go:260-267) is left out.
- `ResourcePool.Resize`, `DeleteAllForDevice`, `MetaStreamFilter`, `ExtractSmartSentences`, `AlignToolMessages`, `AsyncExecutor`, idle clocks, version comparison and length-prefixed frames are not part of this model.
