# Concurr, verified

Concurr runs one command template over many inputs, on the client's own cores and on remote
servers. This project models the way of a job from the command line to the printed result and
proves what the parts keep together. `dafny verify dfyconfig.toml` checks all of it.

## What is modelled

**Templates** (`Tokenizer`, `TemplateLaws`, `TemplateMeaning`, `Jobs`). The scanner with its `start` cursor and flag
bits, the expansion loop and the printer. The meaning of a template is given on the template
itself (`Tokenizer.CommandLine`): backslashes hide the next character, a brace group runs to the
next unhidden closing brace, three groups are replaced, everything else is literal, and the
input is appended if no group names it. The laws of `TemplateMeaning` say the same by the way a
template begins; `TemplateBegins` shows that they cover every template.

**The wire** (`Codec`, `Instructions`, `Grammar`, `Escaping`, `Replies`, `Reading`, `Exchange`, `Connection`).
Bytes are bytes and text is encoded in UTF-8 (`Utf8`), so a chunk may end inside a character. The
decoder cuts frames off a buffer in place; its arithmetic underflow on a buffer that starts with a
newline is an explicit `Panicked` outcome. The client side has the slot's cache, the retried
write, the buffered reader of three lines with what it reads ahead, and the two nested retry loops
that open a connection. What either side accepts is stated on the text: numerals by the value of
their digits (`Decimal.Denotes`), requests by their spelling (`Grammar.Spells`), replies by their three
lines (`Replies.IsResult`).

**The client** (`Dispatcher` and its proofs, `Sources`, `ClientQueues`, `SlotLoop`). Producer, slots and main
thread are a transition system of labelled steps, each with at most one access to shared state. The
queues, the sources and one pass of each kind of slot are also given as objects and loops, and shown
to take the very steps of the system; a pass of a remote slot has the cache, the wire and the reader
in it.

**The server** (`CommandTable`, `CommandPool` and its proofs, `CommandUnit`). Request handlers under
the read-write lock and the workers of every command are a second transition system; a command
that its workers change in place is a class whose actions are steps of it. `CommandPoolRequests.Reaches`
are the states that some interleaving of given requests leads to; the exact conditions of
`CommandPoolReplies` and `CommandPoolAnswers` are about these requests alone.

## Assumptions

- Atomics are sequentially consistent, although several loads in the source are relaxed.
- Running a command line is a choice among the captures that a relation `shell` allows for it.
- In the dispatcher, a successful exchange returns the reply to the job just sent, and a failed one
  stores nothing. `SlotLoop.ExchangeIsComplete` derives this from the slot's and the server's code
  for a clean write and a server whose replies belong to their requests; `SlotLoop.RemoteSlot.Pass`
  says what a pass does with any reply. `Exchange.LeftoverIsSentFirst` shows how the source can
  break the assumption: a failed write leaves its instruction in the cache, and the next
  successful write sends both.
- Local slot numbers are given in the order of the slots; `usize` has 64 bits.

## What turned out differently than one might expect

- `escape` does not double backslashes, so captured output does not always survive the wire:
  `Escaping.UnescapeEscape` gives the exact texts that do.
- What the client prints need not be what was captured: `DispatcherPasses.PrintedAreCapturesIff`
  gives the exact condition.
- The client need not exit. It cannot once a job has been given up, nor once its main thread waits
  past the last job, which happens if it tests for the end of the inputs just before that is
  announced. `DispatcherPasses.GiveUpIsPossible` and `DispatcherProgress.HangIsPossible` give runs
  that end so, and `DispatcherProgress.CanFinishIff` shows that these are the only obstacles.
- A server tells requests apart by command id and job id alone. A request can get the result of
  another one with the same ids; that does no harm exactly when the two are interchangeable, as a
  retried job and its first try are (`CommandPoolReplies.RepliesBelongIff`).
- Of two requests with the same ids the result of one may replace that of the other
  (src/server/service/outputs.rs:26-28). Then one of the handlers polls for ever unless the ids are
  used again. It holds the read lock, so no command can be added or deleted meanwhile (`CommandPoolAnswers.LossIsPossible`,
  `CommandPoolAnswers.LostForEver`). A retried job whose first try still waits is such a case;
  distinct ids are exactly what excludes it (`CommandPoolAnswers.AllAnswerableIff`).
- A slot reads each reply with a new buffered reader, and what that has read ahead is lost:
  `Exchange.ReadAheadIsLost` says exactly when that is nothing.
- Printing a tokenised template and tokenising it again adds another placeholder when the
  template ends inside a brace group: `TemplateLaws.RetokeniseIff`.
- A retried write can put parts of an instruction on the wire more than once:
  `Connection.CleanWrite` says exactly when it does not.

## Model

| member | source | states |
|---|---|---|
| Tokenizer.New | src/shared/tokenizer.rs:25-80 | the scanner's loop yields the tokens of the template's grammar; throughout, the printed tokens followed by the text not yet stored are the template |
| Tokenizer.AppendPlaceholder | src/shared/tokenizer.rs:65-77 | a template that does not name the input gets it appended, after a space unless it is empty |
| TemplateLaws.ExpandTokenised | src/shared/jobs.rs:50-57 | for every template, slot, job and input, expanding the tokens gives the direct substitution on the template; inserted text is never scanned |
| TemplateLaws.DisplayTokenised | src/shared/tokenizer.rs:83-95 | the tokens print as the template, or as it followed by a space and a placeholder when it names no input |
| TemplateLaws.TokensWellFormed | src/shared/tokenizer.rs:61-77 | no text token is empty and a placeholder is always present |
| TemplateLaws.RetokeniseIff | src/shared/tokenizer.rs:25-95 | printing and tokenising again gives the same tokens exactly when the template names the input or leaves no group open |
| TemplateLaws.PrintedIsStable | src/shared/tokenizer.rs:25-95 | what was printed once prints and tokenises unchanged from then on |
| TemplateLaws.Print | src/shared/tokenizer.rs:83-95 | the printing loop writes the tokens' text one after the other |
| TemplateLaws.TokensOfExamples | src/shared/tokenizer.rs:101-114 | the two templates of the tokenizer's own test give the tokens expected there |
| TemplateMeaning.GroupsMean | src/shared/jobs.rs:51-56 | where the scan meets `{}`, `{%}` or `{#}`, the substitution puts the input, the slot's number, the job's number, and goes on behind it |
| TemplateMeaning.InputGroup | src/shared/tokenizer.rs:65-77 | a template that begins with the input's group: the input, the rest substituted, and nothing appended |
| TemplateMeaning.SlotGroup | src/shared/jobs.rs:53 | a template that begins with the slot's group: the slot's number, then the rest |
| TemplateMeaning.JobGroup | src/shared/jobs.rs:54 | a template that begins with the job's group: the job's number, then the rest |
| TemplateMeaning.OrdinaryCharacter | src/shared/tokenizer.rs:35-59 | any other character but brace and backslash stays, then the rest |
| TemplateMeaning.HiddenCharacter | src/shared/tokenizer.rs:36-38 | a backslash and the character it hides stay, then the rest |
| TemplateMeaning.OtherGroup | src/shared/tokenizer.rs:46-58 | a group with any other text stays as it is, then the rest |
| TemplateMeaning.OpenEnd | src/shared/tokenizer.rs:61-64 | a group that is never closed stays, and the input is appended |
| TemplateMeaning.TemplateBegins | src/shared/tokenizer.rs:25-80 | one of these laws says how a template begins, whatever it is |
| TemplateMeaning.JobOnSlot | README.md:21-22 | the client's own example gives the line with both numbers in their places |
| Jobs.FillBuffer | src/shared/jobs.rs:47-57 | the loop over the tokens leaves their expansion in the buffer: for the tokens of a template, the command line it stands for |
| Escaping.Escape | src/server/service/events.rs:97-118 | the loop with its copying cursor computes the recursive escaping |
| Escaping.Unescape | src/client/slot.rs:226-253 | the two-character loop computes the recursive unescaping |
| Escaping.EscapedHasNoNewline | src/server/service/events.rs:94-96 | escaped text holds no newline |
| Escaping.UnescapeEscape | src/client/slot.rs:226-253 | text comes back unchanged exactly when no backslash in it stands before a backslash, the letter n or a newline |
| Decimal.ParseToString | src/server/service/events.rs:87-92 | a printed number is read back exactly when it fits the type |
| Decimal.ParseIff | src/server/service/events.rs:87-92 | `parse` accepts exactly the numerals of numbers that fit, by the value of their digits, one plus sign allowed |
| Decimal.PrintedDenotes | src/client/slot.rs:185-187 | a number is printed as a numeral for it, without sign or leading zero |
| Utf8.DecodeIff | src/server/service/mod.rs:26-30 | bytes are read as a text exactly when they are its encoding |
| Codec.BytesMut.SplitTo | src/server/service/codec.rs:15-17 | cuts the head off the buffer and keeps the rest |
| Codec.DecodeNext | src/server/service/codec.rs:12-39 | one call: frame, outcome and what is left, including the panic on a leading newline |
| Codec.Feed | src/server/service/codec.rs:12-39 | appending a chunk and calling until nothing is found yields the outcomes of the buffered bytes |
| Codec.DecodeExtends | src/server/service/codec.rs:12-39 | later bytes never change what a call found; a call that finds nothing takes nothing |
| Codec.ChunkingIndependence | src/server/service/codec.rs:12-39 | any split of a stream into chunks yields the outcomes of the whole stream and leaves the same bytes |
| Grammar.ParseArgumentIff | src/server/service/codec.rs:19-35 | an argument is a request exactly when it spells it: one of the five forms, with numerals that fit and valid text |
| Grammar.EventIff | src/server/service/codec.rs:12-35 | a call yields a request exactly when the buffer begins with its spelling, one more byte and the first newline |
| Grammar.FailedIff | src/server/service/codec.rs:12-35 | a frame that spells no request is taken from the buffer and refused for what is wrong with it |
| Grammar.NoEventIff | src/server/service/codec.rs:13-15 | a call finds nothing exactly without a newline, and panics exactly if one comes first |
| Grammar.RefusalsMean | src/server/service/events.rs:28-60 | what each refusal says of the argument |
| Instructions.LineParses | src/server/service/events.rs:23-60 | every line the protocol lets a client write, the request for the list of commands included, is parsed to the request it means, for all ids and texts |
| Instructions.FrameDecodes | src/server/service/codec.rs:12-39 | one call takes exactly one sendable frame, whatever follows it |
| Instructions.InstructionRoundTrip | src/client/connection.rs:61-72 | any sequence of sendable instructions, in any chunks, is decoded to exactly its requests with nothing left over |
| Instructions.FrameCarriesIff | src/server/service/codec.rs:19-35 | a frame carries its instruction exactly when the command is not empty and the text has no newline |
| Replies.EncodeInto | src/server/service/codec.rs:46-50 | a reply is appended to the buffer with one newline after it |
| Replies.ResultIsThreeLines | src/server/service/events.rs:75-85 | a result is three lines, each with the one newline that ends it |
| Replies.ReplyRead | src/client/slot.rs:157-209 | a reply is exactly the three lines that are read; id and status are recovered for all values, the captured texts up to escaping |
| Reading.BufReader.ReadLine | src/client/slot.rs:157-166 | the next line of the stream however it arrives in chunks; chunks are read only when the buffer is used up |
| Reading.NothingHeldIff | src/client/slot.rs:130 | a reader has read nothing ahead exactly when what was taken ends with a chunk |
| Exchange.ReadAheadIsLost | src/client/slot.rs:125-138 | in any chunks a reply is read; of what follows, what the reader has read ahead is lost, nothing exactly when the reply ends with a chunk |
| Replies.ReplyRoundTrip | src/client/slot.rs:125-138 | a result comes back as sent exactly when both captured texts are transparent |
| Replies.ReadReplyIff | src/client/slot.rs:157-209 | a stream is read as a reply exactly when it begins with three lines of text, the first a numeral that fits `usize`, one space and a numeral that fits `u8` |
| Replies.RefusedRepliesMean | src/client/slot.rs:202-208 | which streams are refused for invalid text and which for a status line without a space |
| Replies.ErrorIsRefused | src/server/service/events.rs:78 | an error is one line, and a client that waits for a result refuses it |
| Replies.ErrorsDiffer | src/server/service/events.rs:78 | an error carries its id and, up to escaping, its text |
| Replies.ReadNumberIff | src/client/connection.rs:143-150 | a line is read as a number exactly when it is a numeral and one more ASCII character, and panics exactly without that |
| Replies.NumberRoundTrip | src/client/connection.rs:143-150 | a number the server answers is the number the client gets |
| Connection.AttemptConnection | src/client/connection.rs:74-121 | connects exactly when a TLS success comes before the fourth failure of either kind; at most 7 TCP and 4 TLS attempts and 6 sleeps |
| Connection.AttemptWrite | src/client/connection.rs:123-141 | at most four calls, success exactly at the first that succeeds, and what each call put on the wire |
| Connection.PartOf | src/client/connection.rs:123-141 | a call puts out the beginning of the data, all of it when it succeeds |
| Connection.CleanWrite | src/client/connection.rs:123-141 | the instruction arrives once and whole exactly when no failed call had sent a part of it |
| Exchange.ResultsCache.WriteInstruction | src/client/slot.rs:176-198 | sends what earlier failures left, then the frame of this job; cleared on success only |
| Exchange.ResultsCache.Clear | src/client/slot.rs:211-215 | clears the three lines and keeps the instruction |
| Exchange.ResultsCache.ReadFrom | src/client/slot.rs:157-174 | fills the cache with three lines cut by one character, or fails on invalid text; what the reader then holds and has left |
| Exchange.ResultsCache.ReadResults | src/client/slot.rs:125-138 | stores the result of a well-formed reply under the id in it, and nothing on any error; the reader goes with what it has read ahead |
| Exchange.ExchangeRelays | src/client/slot.rs:125-138 | a server's result reaches the outputs under its own id as the dispatcher assumes |
| Exchange.LeftoverIsSentFirst | src/client/slot.rs:192-197 | after failed writes the server is sent the old instructions first and answers those |
| ClientQueues.Inputs.GetJob | src/client/inputs.rs:10-13 | takes the oldest input, or none |
| ClientQueues.Inputs.InsertJob | src/client/inputs.rs:15-18 | adds an input at the end |
| ClientQueues.Outputs.PushExternal | src/client/outputs.rs:45-50 | stores a remote result under its id |
| ClientQueues.Outputs.Insert | src/client/outputs.rs:64-74 | stores a local result, or the failure note, under its id |
| ClientQueues.Outputs.Get | src/client/outputs.rs:54-61 | polls while other threads store results, and takes the output with this id out of the map at the first poll that finds it |
| Sources.LineInput | src/client/source.rs:28-33 | what is taken of a line is its part between the white space around it, if there is one and it begins no comment |
| Sources.LineHasInput | src/client/source.rs:29-30 | a line gives an input exactly when some character is not white space and the first such one is not `#` |
| Sources.AcceptedIsQueued | src/client/source.rs:25-41 | the jobs of a source are those of its lines before a read error, in order, with consecutive numbers, and nothing else |
| Sources.WhitespaceIs | src/client/source.rs:29 | the 25 characters that count as white space |
| Sources.FilesInOrder | src/client/main.rs:181-188 | files contribute one after the other, and one that cannot be opened nothing |
| ClientQueues.Read | src/client/source.rs:25-41 | appends the source's jobs to the queue, numbered from the current count |
| ClientQueues.ReadFiles | src/client/main.rs:181-188 | numbering goes on from file to file; a file that cannot be opened adds nothing |
| ClientQueues.EnqueueStrings | src/client/main.rs:171-180 | arguments are numbered from zero in order |
| Sources.AcceptedAreSendable | src/client/source.rs:26-33 | inputs read from lines are not empty, do not begin with `#` and hold no newline, so every one can be sent |
| SlotLoop.RemoteSlot.NextInput | src/client/slot.rs:49-57 | a new input first, then the job that failed last |
| SlotLoop.RemoteSlot.Pass | src/client/slot.rs:85-116 | a pass with cache, wire and reader: it stores what the reply carries under the reply's own id, puts the job back with one more failure, or gives it up after the fourth; a run of the dispatcher unless the reply is to another job |
| SlotLoop.ReplyIff | src/client/slot.rs:97-99 | a slot gets a reply exactly when its instruction went out and what came in begins with the three lines of a result |
| SlotLoop.NoReplyPutsBack | src/client/slot.rs:104-116 | without one, as on a connection closed before anything came, nothing is stored and the job is put back with one more failure or given up |
| SlotLoop.ExchangeIsComplete | src/client/slot.rs:97-99 | a job's whole way, written, decoded, run by the server's workers, answered and read, is exactly the dispatcher's step that completes it |
| ClientQueues.LocalPass | src/shared/jobs.rs:46-108 | a pass of a local slot's loop is a run of the dispatcher and runs the job's own command line |
| ClientQueues.ProduceStrings | src/client/main.rs:171-180 | the producer thread is a run of the dispatcher that queues every argument, stores the total and then announces the end |
| ClientQueues.PrintAll | src/client/main.rs:199-215 | with all results there, the main loop is a run of the dispatcher that prints them in order of their ids, removes exactly those and leaves the loop |
| DispatcherEnd.OldestFirst | src/client/inputs.rs:10-13 | in every run jobs leave the queue in the order of the inputs |
| DispatcherEnd.LastFailedFirst | src/client/slot.rs:49-57 | the job that failed last is retried first, with one more failure |
| DispatcherInvariant.InitInv | src/client/main.rs:68-78 | the invariant holds at the start |
| DispatcherInvariant.StepKeepsInv | src/client/slot.rs:85-116 | every step of every thread keeps it: each produced job is in exactly one of queue, hands, retry stack, given up, outputs and printed, with its own input and its failures counted |
| DispatcherInvariant.HeldIsNowhereElse | src/client/slot.rs:85-116 | a job in a slot's hands is in no other slot, queue or map |
| DispatcherLaws.StepRefines | src/client/main.rs:199-215 | a step prints nothing or the next result a sequential client may print |
| DispatcherLaws.ConcurrentRefinesSequential | src/client/main.rs:199-215 | in every run, what is printed is a sequential run: results of jobs 0, 1, ... in order, once each, each of its own input |
| DispatcherPasses.PrintedAreCapturesIff | src/client/main.rs:203-213 | in all runs each printed outcome is one captured from the template with that input substituted, exactly when the client has no remote slot or what the wire makes of a capture of its own command lines is one |
| DispatcherLaws.TransparentIsKept | src/client/slot.rs:226-253 | which holds if the captures of its own command lines are transparent |
| DispatcherLaws.StepOverwritesNothing | src/client/outputs.rs:43-50 | no stored result and no job given up is ever replaced |
| DispatcherLaws.NothingLeftAtExit | src/client/main.rs:228-230 | when the loop is left everything is printed, all queues and maps are empty, and no slot holds a job |
| DispatcherLaws.RetryAccounting | src/client/slot.rs:106-113 | entries on the retry stack count their failures, one to three; a job given up has failed four times; none is exchanged more than four times |
| DispatcherLaws.AtMostSixteenWrites | src/client/connection.rs:123-141 | at no more than four calls an exchange, no more than sixteen write calls are made while remote slots hold a job, the exchange in progress included |
| DispatcherLaws.StepWork | src/client/slot.rs:85-116 | take, fail, complete and print steps decrease a measure, producing adds nine, other steps leave it |
| DispatcherLaws.WorkIsBounded | src/client/slot.rs:85-116 | no run takes more than nine steps of work for each job produced |
| DispatcherProgress.WorkOrEnd | src/client/slot.rs:85-116 | with all inputs queued, a step of work is reachable by housekeeping alone, or the main thread has reached the least job given up or the end |
| DispatcherProgress.StuckStates | src/client/main.rs:199-215 | with all inputs queued, a stuck client's counter is the least id given up, or the number of inputs if there is none |
| DispatcherProgress.NeverExits | src/client/slot.rs:108-109 | after a job is given up, or once the main thread waits past the last job, no run leaves the loop |
| DispatcherPasses.GiveUpIsPossible | src/client/slot.rs:106-109 | giving up is real: any client with a remote slot and an input has a run that gives a job up |
| DispatcherProgress.HangIsPossible | src/client/main.rs:199-215 | that wait is real: for every client with a slot and all inputs, some run prints everything and then waits for ever |
| DispatcherProgress.CanFinishIff | src/client/main.rs:199-230 | from every reachable state the loop can be left exactly when no job is given up and the main thread does not wait past the end |
| DispatcherEnd.CompleteMeans | src/shared/jobs.rs:50-101 | a slot can store exactly what its job's own command line gives, a local slot with its own number and unchanged, a remote one as the wire relays it |
| DispatcherEnd.SlotsStop | src/client/main.rs:228-230 | once `kill` is set at most three steps a slot remain, nothing more is printed, and a slot that has not stopped can take one |
| DispatcherEnd.ClientCanEnd | src/client/main.rs:228-230 | a client that has left its loop can bring all its slots to a stop |
| CommandTable.Table.Add | src/server/service/mod.rs:88-121 | stores the command at the least free position and answers it |
| CommandTable.Table.Reset | src/server/service/mod.rs:195-197 | frees the position and touches no other |
| CommandTable.LiveCommandsStay | src/server/service/mod.rs:88-121 | over every history a live command keeps id and contents until its own deletion |
| CommandTable.LengthIsPeak | src/server/service/mod.rs:88-121 | over every history the table is as long as the greatest number of commands ever live at once |
| CommandPoolLaws.TableLengthIsPeak | src/server/service/mod.rs:88-121 | in every run of the server the table is as long as the greatest number of commands that were in it at once |
| CommandPoolInvariant.StepKeepsInv | src/server/service/mod.rs:123-198 | every step keeps the lock's accounts, the table without duplicates, the workers' counters, and that a command never has more of a job than handlers wait for it |
| CommandPoolInvariant.WorkerKeepsUnit | src/shared/jobs.rs:46-110 | a worker's step moves a job on; it loses only an uncollected result of the same id |
| CommandPoolLaws.DeletionFindsNothing | src/server/service/mod.rs:181-197 | whoever holds the write lock finds every stack and output map empty, no worker running and no request waiting |
| CommandPoolLaws.EntryResetOnlyWhenIdle | src/server/service/mod.rs:191-196 | an entry is reset only by the handler that told its workers to stop, when all of them have left |
| CommandPoolDuties.HandlersMindTheirRequests | src/server/service/mod.rs:50-198 | in all interleavings each handler is at work on its own request and answers that: ids, texts and kinds are not mistaken, a free id is free, a placed command has the template asked for |
| CommandPoolDuties.OnlyTheNamedIsDeleted | src/server/service/mod.rs:181-197 | a command is reset, and its workers told to stop, only by the handler of a `del` that names its id |
| CommandPoolDuties.EveryRequestCanBeServed | src/server/service/mod.rs:50-198 | whenever the lock is free any waiting request can be served alone: deleted, placed under the id answered, listed, replied to or told that there is no such command |
| CommandPoolLaws.NewestFirst | src/server/service/inputs.rs:8-12 | the newest input is run first |
| CommandPoolLaws.ParkedCountsWorkers | src/shared/jobs.rs:110 | the counter is the number of workers that have left, at most all of them and none before the kill flag |
| CommandPoolLaws.WaitingMeansLive | src/server/service/mod.rs:123-128 | while a request waits, its command is not told to stop and every worker is in its loop |
| CommandPoolLaws.HandshakeEnds | src/server/service/mod.rs:188-194 | after the kill flag at most three steps a worker remain; until all are parked one of them can move, then the entry is reset |
| CommandPoolRequests.ReplyIsForItsIds | src/server/service/mod.rs:123-141 | whatever arrives, a reply carries a result of some input that was asked for under the same command id and job id |
| CommandPoolReplies.AgreedRepliesAreOwn | src/server/service/mod.rs:123-141 | in a run in which requests that wait together for the same job have the same input, every reply is a result of the request's own input |
| CommandPoolReplies.RepliesBelongIff | src/server/service/mod.rs:123-141 | in all interleavings of given requests every reply is a result of the request's own input, exactly when requests with the same ids are interchangeable |
| CommandPoolReplies.DistinctAreServedOnce | src/shared/jobs.rs:49-101 | in a run whose waiting requests have distinct ids, each has its job in exactly one place, stack, worker or output, and every reply is its own |
| CommandPoolReplies.ServedOnceIff | src/shared/jobs.rs:49-101 | in all interleavings of given requests every waiting one has its job in exactly one place, exactly when no two have the same ids |
| CommandPoolAnswers.AnswerableIff | src/server/service/outputs.rs:12-24 | whatever running a command line gives, a waiting request can be brought to its result by the workers exactly when its command still has the job |
| CommandPoolAnswers.AllAnswerableIff | src/server/service/outputs.rs:26-28 | in all interleavings of given requests every waiting one can be answered exactly when no two have the same ids |
| CommandPoolAnswers.LossIsPossible | src/server/service/outputs.rs:26-28 | two requests with the same ids can end so that one is answered and the other waits for a command with nothing left |
| CommandPoolAnswers.LostForEver | src/server/service/mod.rs:123-128 | such a request waits for ever unless its ids are used again, and meanwhile nobody gets the write lock |
| CommandUnit.Command.GetJob | src/server/service/inputs.rs:9 | takes the newest input, or none |
| CommandUnit.Command.InsertJob | src/server/service/inputs.rs:11 | puts an input on top |
| CommandUnit.Command.StepWorker | src/shared/jobs.rs:46-110 | each action of a worker is a step of the pool, and it runs its job's own command line |
| CommandUnit.Command.Stop | src/server/service/mod.rs:186-194 | whichever worker moves while the handler sleeps, polling ends with all workers parked |
| CommandUnit.Command.Answer | src/server/service/mod.rs:123-141 | with other jobs on their way, a request with a new id is answered with what its own command line gives, and leaves all else as it was but for what the worker was running |

## Left out

- TLS, sockets and the tokio transport: only appending bytes and calling the decoder is modelled.
- Process spawning, pipes and the choice of the shell: the relation `shell` stands for them.
- Sleeps, verbose messages and weaker memory orders than sequential consistency.
- Configuration, certificates, redirection, command-line grouping and the entry points: plumbing.
- The texts of answers that are no result: the model says which answer a request gets and with which number or id; the listing of commands is not spelled out.
- `ERR` replies on the client: its reader waits for three lines, so they are read only as a short stream.
- The truncation of exit codes to a byte: a capture has a status as the client sees it.
- ClientQueues.PrintAll: requires every result to be there, because a method has no other threads; all interleavings are covered by the dispatcher's runs.
- CommandUnit.Command.Answer: lets only the first worker move while it polls; all interleavings are covered by the pool's runs.
- CommandPoolAnswers.AnswerableIff: says that an answer can be reached, not that a scheduler gets there.
- DispatcherLaws.AtMostSixteenWrites: counts the calls while a job is held; an instruction that a failed exchange left in the cache goes out again with later jobs.
- Connection.AttemptConnection: what the operating system does in each attempt is an arbitrary sequence of outcomes.
