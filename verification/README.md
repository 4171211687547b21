# code-editing-agent, modelled in Dafny

A model of the core of *code-editing-agent*, a terminal chat agent written in Go.
The agent reads lines from the user and sends the conversation to a language-model
inference API. It shows the model's text and runs the tools the model asks for,
then sends the tool results back, turn after turn. The model covers three parts:

- **The agent loop** (`agent.dfy`, `messages.dfy`): `NewAgent`, `runInference`, `executeTool` and `Run` of `main.go`.
  - The agent is a class. Its oracles are fields:
    - the inference client is the script of replies it has yet to give;
    - `getUserMessage` is the lines it has yet to return;
    - each tool is a pure function of its raw input.
  - What the agent displays and calls is recorded, in order, in a transcript of events.
  - `Run` is proved against a specification of the conversations it can build (`WellFormed`), the transcript each produces (`TraceOf`) and the input and replies each consumes.
- **The edit_file tool** (`edit_file.dfy`, `strings.dfy`, `filesystem.dfy`):
  - `EditFIle` and `createNewFile` run over a disk. The disk is a class holding a map from file paths to contents and a set of directory paths.
  - Any OS failure the disk does not determine is an input to the call that meets it.
  - `strings.ReplaceAll` and `path.Dir` are modelled as functions, with their properties proved.
- **The list_files tool** (`list_files.dfy`): `ListFiles` as a loop over the visits the directory walk makes, proved against the listing and first-error functions.

## Model

| member | source | states |
|---|---|---|
| Agent.FindTool | main.go:52-61 | the position found holds the first tool with the requested name; none is found exactly when no tool has it |
| Agent.Dispatch | main.go:51-74 | the block is a tool result carrying the tool_use id; with no tool of that name it is the error result "oops... tool not found" |
| Agent.DispatchSelectsFirstTool | main.go:55-73 | the first tool with the name decides the result: its response with isError false, or its error message with isError true |
| Agent.Results | main.go:102-111 | every block collected while walking a message is a tool result |
| Agent.ResultsCorrelate | main.go:102-111 | exactly one result per tool_use block, in content order, each echoing its block's id |
| Agent.Shown | main.go:103-110 | walking a message displays only model text and tool trace lines |
| Agent.ShownKeepsTextOrder | main.go:103-106 | every text block is displayed, in content order, and no other text is shown as the model's |
| Agent.ReadInputStep | main.go:82-92 | reading a line appends it as a user message, keeps the conversation well formed and records the prompt |
| Agent.ReplyStep | main.go:94-119 | taking a reply appends the model message, then the tool-result message exactly when a tool was asked for; the conversation stays well formed |
| Agent.TraceConsistent | main.go:76-123 | user input is read only when no tool results are waiting; every inference call sends a conversation ending with a user message; history only grows by appending |
| Agent.TracePrefix | main.go:76-123 | the transcript of a prefix of the conversation is a prefix of the whole transcript |
| Agent.NextActionIsInference | main.go:113-119 | after tool results are appended, the next action is an inference call that sends them, without reading user input |
| Agent.Agent.constructor | main.go:21-27 | NewAgent stores the tools, the client and the input source |
| Agent.Agent.GetUserMessage | main.go:131-136 | returns the next line and true, or "" and false once input is exhausted |
| Agent.Agent.RunInference | main.go:29-49 | sends the conversation (recorded as an inference call) and takes the client's next reply |
| Agent.Agent.ExecuteTool | main.go:51-74 | the result equals Dispatch; a trace line is printed exactly when a tool was found |
| Agent.Agent.HandleContent | main.go:102-111 | the tool results equal Results of the content and the displayed events equal Shown of it |
| Agent.Agent.ReadUserInput | main.go:82-92 | the prompt is recorded; at end of input nothing else changes and Run's final state is reached; otherwise exactly the next line is taken and appended as a user message, keeping the conversation well formed |
| Agent.Agent.Respond | main.go:94-119 | an inference error or a spent script stops the turn right after the call, with the error taken from the script; otherwise exactly one successful reply is taken, the model message and, exactly when tools were asked for, one result message are appended, the transcript grows by the call and the reply's display, the conversation stays well formed, and user input is read next exactly when no tool was asked for |
| Agent.Agent.Run | main.go:76-123 | the conversation built is well formed; the lines read, the replies taken and the whole transcript are those it records; it returns nil at end of input and returns the first inference error; with no input it prompts once and ends |
| Strings.ReplaceAll | tools/edit_file.go:48 | with a non-empty pattern that Index does not find, the text is returned unchanged |
| Strings.ReplaceAllEmptyPattern | tools/edit_file.go:48 | an empty old_str yields \|s\| + 1 copies of new_str, one at each slot before a character and one at the end, with every character of the text kept between them |
| Strings.IndexFrom | tools/edit_file.go:48 | the first position at or after k where the pattern occurs, or none when it occurs nowhere from k on |
| Strings.Index | tools/edit_file.go:48 | the first occurrence of the pattern; none only when the pattern occurs at no position |
| Strings.IndexIsFirst | tools/edit_file.go:48 | an occurrence with none before it is the one Index finds |
| Strings.ReplaceAllPresent | tools/edit_file.go:48-52 | with an occurrence and a different replacement, the content changes |
| Strings.ReplaceAllUnchangedIffAbsent | tools/edit_file.go:48-52 | the "old_str not found" test holds exactly when old_str does not occur in the file |
| Strings.ReplaceAllFirstOccurrence | tools/edit_file.go:48 | replacement scans left to right: the text before the first occurrence is kept, that occurrence is replaced, and scanning resumes after it |
| Strings.ReplaceAllLength | tools/edit_file.go:48 | a replacement no shorter than the pattern never shortens the content, and one no longer never lengthens it |
| Strings.LastSlash | tools/edit_file.go:62 | the position of the last '/', or none when the path has no slash |
| Strings.TrimTrailingSlashes | tools/edit_file.go:62 | a prefix of the path, with only slashes removed and none left at its end |
| Strings.Dir | tools/edit_file.go:62-63 | "." for a path without a slash; otherwise "/" or a proper prefix of the path that ends just before a slash and not in one, and what is cut off up to the last slash is slashes only |
| Strings.DirIsNotPath | tools/edit_file.go:62-64 | no path other than "." and "/" is its own directory |
| FileSystem.Disk.ReadFile | tools/edit_file.go:39-45 | the content of an existing file; a missing path is an os.IsNotExist error and never an os.IsExist one; a directory cannot be read; on a consistent disk a read without a fault succeeds exactly on a file; no error it returns is one os.IsExist reports, a fault included, since it opens read-only |
| FileSystem.AfterFault | tools/edit_file.go:53 | a write that faults after the open leaves the file holding a prefix of the data no longer than what was written, possibly empty; no other file changes |
| FileSystem.Disk.WriteFile | tools/edit_file.go:53-56 | creates or replaces the file and nothing else; on a directory it fails and changes nothing; an OS fault after the open leaves the file truncated or partly written |
| FileSystem.Disk.MkdirAll | tools/edit_file.go:64-67 | adds the directory; it fails on an existing file or an OS fault and then changes nothing |
| EditFile.CreateNewFile | tools/edit_file.go:61-75 | every outcome with its message and its effect on files and directories: without a directory part the file is written unless it is a directory or the write faults, a fault after the open leaving it truncated; with one, a fault or an existing file at the path fails MkdirAll, and otherwise the path becomes a directory and the write fails on it; it never succeeds with a directory part |
| EditFile.NestedCreateFails | tools/edit_file.go:62-72 | with a directory part, createNewFile as written fails and changes no file; when MkdirAll succeeds it leaves a directory at the file's path |
| EditFile.EditFile | tools/edit_file.go:28-59 | each branch in order: a decode error, invalid input, every read error returned as it is (the os.IsExist guard of the create branch never holds, so it never creates a file or a directory and never succeeds with anything but ""), "old_str not found in file", then the replaced content written, with a failed write reporting success even though it may leave the file truncated or partly written; no other file changes |
| EditFile.CreateNewFileIntended | tools/edit_file.go:61-75 | every outcome with its message and its effect on files and directories, with the parent made as the directory; a new file is created, and its parent recorded, whenever the OS reports no fault, the path is not a directory and the parent is not a file |
| EditFile.IntendedCreateSucceeds | tools/edit_file.go:61-75 | with no fault, a path that is not a directory and a parent that is not a file, the intended create succeeds, writes exactly that file and adds exactly the parent directory |
| EditFile.EditFileIntended | tools/edit_file.go:28-59 | a missing file with an empty old_str is created with new_str, with every outcome of the intended create; a failed write is reported as the error, with the file as the fault left it |
| ListFiles.FirstError | tools/list_files.go:35-42 | no error exactly when no visit reports one |
| ListFiles.FirstErrorIsEarliest | tools/list_files.go:35-42 | the error returned is that of the earliest visit with an error |
| ListFiles.Listing | tools/list_files.go:44-50 | the callback appends at most one entry per visit |
| ListFiles.ListingLength | tools/list_files.go:44-50 | every non-root visit adds exactly one entry and the root none: a walk of only kept visits lists one entry per visit, one with none lists nothing |
| ListFiles.Outcome | tools/list_files.go:55-57 | any walk or Rel error makes the result an error with no partial listing; otherwise the result is the listing |
| ListFiles.ListingAppend | tools/list_files.go:34-53 | the listing follows walk order: the listing of a walk is the listing of its first part followed by that of the rest |
| ListFiles.ListingMembers | tools/list_files.go:44-50 | an entry is listed exactly when some non-root visit has it as its relative path, with "/" appended for a directory and nothing for a file |
| ListFiles.EntryNotRoot | tools/list_files.go:44-49 | no non-root visit produces the entry "." |
| ListFiles.RootNeverListed | tools/list_files.go:44 | the walk root "." never appears in the listing |
| ListFiles.ListFiles | tools/list_files.go:22-65 | walks from "." when the path is empty and from the path otherwise, and returns exactly the outcome of that walk |

## Left out

- The inference API call, its model name and token limit, and the tool definitions it builds. The built list is never passed to the request. The client is a script of replies.
- The context argument of Run and runInference: nothing in the model depends on it.
- JSON decoding of tool inputs: a decode result is an input to each tool.
- JSON encoding of the listing, under which an empty listing is encoded as `null`: ListFiles returns the sequence of entries.
- The colours and exact text of the terminal output: the transcript records what is shown, not how.
- `main()`, which registers only the read tool (under the name "read file", with a space) and list_files, and reads stdin line by line. GetUserMessage stands for its line reader.
- Tool panics: read_file and list_files panic on undecodable input, which ends Run; the model's tools always return.
- tools/read_file.go and the JSON schema generation are not part of this model.
- Tool side effects inside the agent loop: each tool is a pure function of its input.
- Agent.Agent.Run: the model adds the outcome OutOfReplies for a reply script that runs out. The real client would keep answering, and a session never ends while the model keeps asking for tools.
- Strings.Dir: path.Dir also cleans "." and ".." elements and repeated slashes inside the path. The model is exact for clean paths.
- FileSystem.Disk: parent directories are not tracked, so writing below a missing directory succeeds in the model. Permissions and other OS failures are inputs, not derived from the disk.
- FileSystem.Disk.WriteFile: how far a faulting write got (`written`) is an input, not derived from the disk; the file is then a prefix of the data, but which prefix is chosen by the caller.
- Characters stand for the runes of Go strings; byte-level encoding is not modelled.
- ListFiles.ListFiles: the walk is an input, so the lexical order of filepath.Walk and the file system it reads are not modelled.

## Findings

| source | as written | input that shows it | evidently intended | confidence | as-written member | corrected member |
|---|---|---|---|---|---|---|
| tools/edit_file.go:41 | a failed read goes to createNewFile only when os.IsExist reports it, which an error of os.ReadFile never does, as it opens read-only | a path that does not exist, with old_str "" | os.IsNotExist, so that a missing file is created | high, not executed | EditFile.EditFile | EditFile.EditFileIntended |
| tools/edit_file.go:64 | MkdirAll is called on the file path itself, so the following write meets a directory | path "a/b.txt", which does not exist | MkdirAll on the parent directory | high, not executed | EditFile.NestedCreateFails | EditFile.CreateNewFileIntended |
| tools/edit_file.go:53-56 | a failed write returns no error, though os.WriteFile may already have truncated the file | a write that fails on a read-only file | return the write error | high, not executed | EditFile.EditFile | EditFile.EditFileIntended |
