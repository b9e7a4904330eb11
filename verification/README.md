# Chat server, shopping cart and exam bank: a Dafny model

This project models three small Java programs and proves properties of the models.

1. **The multi-client chat server** (`ChatApplication.ClientHandler`). The static `clients` registry maps usernames to handlers. Each handler runs one session:
   - it prompts for a username and registers it;
   - it reads lines and routes each one as a private message (`/pm`), a file transfer (`/file`) or a broadcast;
   - it deregisters and announces its departure when its input ends.

   The model is in four modules:
   - `ChatProtocol`: line splitting (`split(" ", 3)`) and prefix classification.
   - `ChatState`: the server state as a value, with one function per atomic step.
   - `ChatProperties`: what each step does to the registry and to every handler's output.
   - `ChatServer`: the imperative model. Class `Server` has the `clients` map and the handlers' state as fields, and its methods update them in place. Each handler step is proved to perform exactly the `ChatState` step of the same name. `Run` performs `ChatState.Session`, `ReadLine` performs `ChatState.Consume`, and `Println` performs `ChatState.Println`.

   A handler's socket is split in two. Its writer is the sequence `out` of lines printed so far. Its reader is the sequence `pending` of lines the client has sent and the handler has not read yet.
2. **The shopping cart and catalogue queries** (`ECommerceApp`).
   - `Catalogue` holds the product record, the lookup by id (stream `filter` + `findFirst`) and the case-insensitive name search.
   - `ShoppingCart` holds class `Cart`, with its item list and running total updated in place, and menu choices 2 (add by id) and 5 (checkout).
   - Prices are integer cents. Every sample price is a whole number of dollars, so the invariant "total equals the sum of the item prices" can be stated exactly.
3. **The exam question bank and scoring** (`OnlineExaminationSystem`). Class `ExamSystem` holds the static `questions` list and `score` counter. Scanner input becomes parameters:
   - the admin step takes one `Entry` per question: its text, four option lines and the correct number;
   - an attempt takes the sequence of typed answers.

The model follows the code, including these behaviours a reader might not expect:
- A duplicate username silently replaces the registered handler. It is not rejected.
- The join announcement also reaches the joiner.
- `/file` to an unknown user still prompts for content and consumes one content line before reporting "not found".
- Because `closeConnection` removes the entry by name, "registered iff active" does not hold. `ChatProperties.DuplicateNameOrphansNewcomer` shows an active handler that is no longer registered.

## Model

| member | source | states |
|---|---|---|
| `ChatProtocol.Split3` | ChatApplication.java:155-158 | `split(" ", 3)`: 1 to 3 parts. Gluing them back with single spaces gives the line. No part before the last contains a space, and with fewer than 3 parts the last has none either. Empty fields are kept. |
| `ChatProtocol.FirstSpace` | ChatApplication.java:155 | The index found is a space with no space before it. None means the line has no space. |
| `ChatProtocol.SplitFirst` | ChatApplication.java:155 | One application of the pattern: the first part has no space. With one part it is the whole text, with two the text is `first + " " + rest`. |
| `ChatProtocol.Classify` | ChatApplication.java:134-140 | Exactly the lines starting with "/pm" are private messages. Exactly the other lines starting with "/file" are file transfers. Everything else is chat text. |
| `ChatProperties.SplitCommandLine` | ChatApplication.java:155-158 | `cmd target payload` (no space in `cmd` or `target`) splits into exactly `[cmd, target, payload]`, whatever spaces `payload` holds. |
| `ChatState.NextLine` | ChatApplication.java:185 | What `println(in.readLine())` prints: the next unread line, or "null" at end of input. |
| `ChatState.Consume` | ChatApplication.java:133 | `in.readLine()` touches only the input. At end of input nothing changes. Otherwise the old input is the line read followed by the new input. |
| `ChatState.Accept` | ChatApplication.java:50-52 | A newly accepted handler (still joining) keeps the registry invariant. |
| `ChatState.Broadcast` | ChatApplication.java:206-214 | A broadcast keeps the registry invariant: every entry is an active handler whose username is the key. |
| `ChatProperties.BroadcastDelivers` | ChatApplication.java:206-214 | Registry unchanged. Every handler registered under a name other than the sender's gets exactly `sender + ": " + message`. The handler registered under the sender's name and every unregistered handler are unchanged. Only outputs change. |
| `ChatState.Join` | ChatApplication.java:125-130 | After join the invariant holds and the handler is active. |
| `ChatProperties.JoinAnnounces` | ChatApplication.java:125-130 | The registry becomes `clients[u := h]`: any handler already under `u` is replaced without rejection and receives nothing. The joiner gets the prompt, then its own announcement (unless it is named "Server"). Every other registered user not named "Server" gets `"Server: u has joined the chat!"`. One input line is consumed. |
| `ChatState.PrivateMessage` | ChatApplication.java:154-170 | The invariant holds and the registry, the handler set and every handler's lifecycle, name and input are unchanged. Only outputs change. |
| `ChatState.DeliverFile` | ChatApplication.java:180-194 | The invariant holds and registry, lifecycles and names are unchanged. Handlers other than the sender change only their output. The sender's input loses exactly the line `readLine` returns (nothing at end of input). |
| `ChatState.ReceiveFile` | ChatApplication.java:178-198 | Same frame as a private message, except that the sender's input loses at most one line. |
| `ChatState.Route` | ChatApplication.java:133-141 | One read-loop turn keeps the invariant and the registry. The sender stays active under the same name and at least one input line is consumed. |
| `ChatState.Drain` | ChatApplication.java:133-141 | The read loop leaves the registry unchanged and ends with the input exhausted and the handler still active under the same name. |
| `ChatProperties.RouteDispatch` | ChatApplication.java:133-140 | After the line is read the invariant still holds. A "/pm" line goes to `privateMessage`, a "/file" line to `receiveFile`, any other line to `broadcast(username, line)`. |
| `ChatProperties.PrivateDelivery` | ChatApplication.java:156-166 | On a three-word line, the target, if registered, gets `"[Private] u: text"` and the sender then gets `"[Private to target] text"`. Otherwise the sender alone gets the not-found line. No input is consumed and nobody else changes. |
| `ChatProperties.RoutePrivate` | ChatApplication.java:154-166 | A line `cmd target text` whose command word starts with "/pm" (so "/pmx" too). If `target` is registered, it gets `"[Private] u: text"`, then the sender gets `"[Private to target] text"` (both in that order when the sender targets itself). Otherwise only the sender gets `"User target not found."`. No other handler changes and one line is consumed. |
| `ChatProperties.RoutePrivateMalformed` | ChatApplication.java:167-169 | A "/pm" line with fewer than 3 parts: only the sender gets the usage line and only that line is consumed. |
| `ChatProperties.FileDelivery` | ChatApplication.java:180-194 | The sender gets "Send file content:". A registered target gets the notice and then the line read (or "null"). Otherwise the sender gets the not-found line. Nobody else changes. |
| `ChatProperties.FileCommandLine` | ChatApplication.java:134-137 | A line `cmd target name` whose command word starts with "/file" (and so not with "/pm") goes to `receiveFile` and splits into exactly those three words. |
| `ChatProperties.RouteFile` | ChatApplication.java:178-194 | A "/file" command with 3 parts. The sender first gets "Send file content:" and exactly one more line is consumed as content ("null" once the input has ended). A registered target gets `"[File] u sent you a file: f"` and then the content. Otherwise the sender gets the not-found line. Nobody else changes. |
| `ChatProperties.RouteFileMalformed` | ChatApplication.java:195-197 | A "/file" line with fewer than 3 parts: only the sender gets the usage line and no content line is read. |
| `ChatProperties.RouteChatLine` | ChatApplication.java:138-140 | A line starting with neither prefix goes as `"u: line"` to every user registered under another name. The handler registered under `u` and unregistered handlers receive nothing, and every other handler changes only in its output. |
| `ChatState.Close` | ChatApplication.java:219-229 | After close the invariant holds and the handler is closed. |
| `ChatProperties.CloseAnnounces` | ChatApplication.java:219-225 | The registry loses exactly the key `u`, whichever handler it pointed to. The closed handler receives nothing more. Every remaining registered user not named "Server" gets `"Server: u has left the chat."`. The handler registered as "Server" (when `u` is not "Server") and unregistered handlers are unchanged. |
| `ChatProperties.DuplicateNameOrphansNewcomer` | ChatApplication.java:221-223 | If `b` joins under the name of active `a` and `a` then closes, the name is unregistered while `b` is still active. |
| `ChatState.Session` | ChatApplication.java:119-147 | A whole session leaves the handler closed and the invariant intact. |
| `ChatProperties.SessionDeregisters` | ChatApplication.java:144-146 | After a session the username it registered is no longer in the registry. |
| `ChatServer.Server.constructor` | ChatApplication.java:16 | The registry starts empty. |
| `ChatServer.Server.Accept` | ChatApplication.java:50-52 | Adds a joining handler. Equals `ChatState.Accept`. |
| `ChatServer.Server.Println` | ChatApplication.java:161 | Appends one line to one handler's output. Nothing else changes. |
| `ChatServer.Server.ReadLine` | ChatApplication.java:185 | Returns the next unread line and consumes it, or None (null) at end of input with nothing consumed. |
| `ChatServer.Server.Broadcast` | ChatApplication.java:206-214 | The loop over `clients.values()` yields exactly `ChatState.Broadcast`. |
| `ChatServer.Server.Join` | ChatApplication.java:125-130 | Equals `ChatState.Join`. |
| `ChatServer.Server.PrivateMessage` | ChatApplication.java:154-170 | Equals `ChatState.PrivateMessage`. |
| `ChatServer.Server.DeliverFile` | ChatApplication.java:180-194 | Equals `ChatState.DeliverFile`. |
| `ChatServer.Server.ReceiveFile` | ChatApplication.java:178-198 | Equals `ChatState.ReceiveFile`. |
| `ChatServer.Server.Route` | ChatApplication.java:133-141 | The prefix dispatch equals `ChatState.Route`. |
| `ChatServer.Server.Close` | ChatApplication.java:219-229 | Equals `ChatState.Close`. |
| `ChatServer.Server.Run` | ChatApplication.java:119-147 | Join, the read loop until end of input, then close, equals `ChatState.Session`. |
| `Catalogue.FirstIndex` | ECommerceApp.java:74-79 | The index found holds the id and no earlier product does. None exactly when no product holds the id. |
| `Catalogue.Lookup` | ECommerceApp.java:162-165 | None exactly when no catalogue product has the id. Otherwise the result has the id, is in the catalogue, and is the product at the first index with that id. |
| `Catalogue.LowerChar` | ECommerceApp.java:209 | The result is never an upper-case ASCII letter. `A`-`Z` map to `a`-`z` (code + 32), and every other character is kept. |
| `Catalogue.ToLower` | ECommerceApp.java:209 | Same length as the input, each character lowered by `LowerChar`, and no upper-case ASCII letter left. |
| `Catalogue.Contains` | ECommerceApp.java:209 | `s.contains(t)` holds exactly when `t` occurs in `s` at some offset. |
| `Catalogue.MissingCharNotContained` | ECommerceApp.java:209 | A name lacking one of the query's characters does not contain the query. |
| `Catalogue.Search` | ECommerceApp.java:208-210 | A product is in the result exactly when it is in the catalogue and its lower-cased name contains the lower-cased query. The result is no longer than the catalogue. |
| `Catalogue.SearchConcat` | ECommerceApp.java:208-210 | Search keeps catalogue order: searching `a + b` gives the matches in `a` followed by those in `b`. |
| `Catalogue.SearchEmptyQuery` | ECommerceApp.java:209 | The empty query finds the whole catalogue, in order. |
| `Catalogue.ToLowerIdempotent` | ECommerceApp.java:209 | Lower-casing twice is lower-casing once. |
| `Catalogue.SearchIgnoresCase` | ECommerceApp.java:209 | Queries that are equal after lower-casing find the same products. |
| `Catalogue.SearchSample` | ECommerceApp.java:132-136 | On the sample catalogue, "PHONE" finds Smartphone then Headphones. |
| `ShoppingCart.SumAppend` | ECommerceApp.java:63-64 | Appending a product adds its price to the sum of the items. |
| `ShoppingCart.SumRemoveAt` | ECommerceApp.java:81-82 | Removing the item at an index subtracts its price from the sum. |
| `ShoppingCart.Cart.constructor` | ECommerceApp.java:53-56 | A new cart is empty with total 0. |
| `ShoppingCart.Cart.AddProduct` | ECommerceApp.java:62-66 | Appends at the end and adds the price. Total == sum of prices is preserved. |
| `ShoppingCart.Cart.RemoveProduct` | ECommerceApp.java:72-87 | With an item of that id present, removes exactly the first such item, keeps the others in order and subtracts its price. With none, items and total are unchanged. Total == sum is preserved either way. |
| `ShoppingCart.Cart.GetTotalPrice` | ECommerceApp.java:109-111 | The total returned is the exact sum of the item prices. |
| `ShoppingCart.Cart.IsEmpty` | ECommerceApp.java:117-119 | True exactly when the item list is empty. |
| `ShoppingCart.AddToCart` | ECommerceApp.java:159-171 | Adds the product `Lookup` returns. For an unknown id ("Invalid Product ID.") the cart is unchanged. |
| `ShoppingCart.Checkout` | ECommerceApp.java:183-192 | The order is placed exactly when the cart is not empty. |
| `Exam.CorrectCount` | OnlineExaminationSystem.java:89-91 | The count of right answers is at most the number of questions. |
| `Exam.CorrectCountExtremes` | OnlineExaminationSystem.java:89-91 | Full marks exactly when every answer equals its question's `correctOption`, and zero exactly when none does. |
| `Exam.CorrectCountAppend` | OnlineExaminationSystem.java:89-91 | One more question adds one exactly when its answer equals its `correctOption`. |
| `Exam.AskAsWritten` | OnlineExaminationSystem.java:69-98 | Never "no exam". It crashes exactly when a question is reached after the timer was cancelled. |
| `Exam.AttemptAsWritten` | OnlineExaminationSystem.java:57-102 | As written, "no exam" exactly for an empty list, and an uncaught exception exactly when there are two or more questions. |
| `Exam.AsWrittenScoresOnlyFirst` | OnlineExaminationSystem.java:78-96 | As written, an exam of two or more questions ends in the exception having scored only the first answer. |
| `Exam.AsWrittenAgreesOnSingleQuestion` | OnlineExaminationSystem.java:78-101 | With one question the attempt as written finishes and adds the right-answer count. |
| `Exam.AsWrittenSingleQuestionAccumulates` | OnlineExaminationSystem.java:89-101 | As written, a one-question bank finishes every attempt. Two right attempts in a row report `score + 1` and then `score + 2` out of 1, so the reported score exceeds the bank size. |
| `Exam.AsWrittenLosesSecondAnswer` | OnlineExaminationSystem.java:78-96 | Two questions answered right: as written the attempt crashes with score 1 while 2 answers were right. |
| `Exam.PerfectSheet` | OnlineExaminationSystem.java:89 | The sheet of correct options scores every question. |
| `Exam.ScoreAccumulates` | OnlineExaminationSystem.java:89-101 | For the corrected attempt (`StudentMenu`): `score` is never reset, so `k` perfect attempts add `k` times the number of questions. From two attempts on, the reported score exceeds `questions.size()`. As written, only a one-question bank gets past the first attempt (see `Exam.AsWrittenSingleQuestionAccumulates`). |
| `Exam.ExamSystem.constructor` | OnlineExaminationSystem.java:5-6 | No questions, score 0. |
| `Exam.MakeQuestion` | OnlineExaminationSystem.java:40-52 | `new Question(...)`: the typed text, exactly the four option lines in input order, and `correctOption` as typed. |
| `Exam.MakeQuestions` | OnlineExaminationSystem.java:37-53 | One question per entry, in input order. Each has the typed text, exactly the four option lines typed, and `correctOption` as typed (no 1-4 check). |
| `Exam.ExamSystem.AdminMenu` | OnlineExaminationSystem.java:37-53 | The new question list is the old one followed by `MakeQuestions(entries)`, so earlier questions are untouched. The score is unchanged. |
| `Exam.ExamSystem.StudentMenu` | OnlineExaminationSystem.java:57-102 | Corrected attempt. The question list is unchanged and `score` grows by exactly the number of right answers. An empty list gives "no exam" and leaves the score alone. Otherwise it reports score out of `questions.size()`. |

## Findings

| source | as written | input that shows it | evidently intended | confidence | as-written member | corrected member |
|---|---|---|---|---|---|---|
| OnlineExaminationSystem.java:78-97 | One `Timer` serves the whole attempt. It is cancelled at the end of every question (line 96), and the next question schedules a task on it again (line 78). `java.util.Timer.schedule` throws `IllegalStateException` on a cancelled timer, and nothing catches it. | Any exam of two or more questions, e.g. two questions with correct options 1 and 2 answered 1 and 2: only the first answer is scored and the final score is never reported. | Every question is asked and scored, and the score grows by the number of right answers. | high; not executed | `Exam.AttemptAsWritten` | `Exam.ExamSystem.StudentMenu` |

## Left out

- Chat client mode and the server/client mode selection (ChatApplication.java:25-38, 62-95): terminal I/O and a reader thread.
- The accept loop and thread-per-connection spawning (ChatApplication.java:45-57): networking and concurrency. Each handler step is one atomic transition. Interleavings between the separate critical sections inside one join (registration, then announcement), one file transfer (prompt and read, then delivery) and one close (removal, then announcement) are not modelled.
- The order in which one broadcast reaches different handlers (HashMap iteration order): each handler's own output is exact, the order across handlers is not represented.
- `IOException` paths, and console logging on the server (ChatApplication.java:51, 143, 227).
- A null username (end of input before the first line, ChatApplication.java:126): `Join` requires one line to be present. The source would register a null key and fail in `broadcast`.
- Writes to a closed socket are not modelled. No step of the model writes to a closed handler.
- Duplicate-username rejection: the code does not reject, so the overwrite is modelled as written.
- `Product.toString` and `Cart.viewCart` (ECommerceApp.java:39-42, 92-103): console formatting of `double` prices only. The items and total they print are the model's state.
- Console output that only informs the user is not modelled:
  - `addProduct`'s "added to the cart" line (ECommerceApp.java:65);
  - `adminMenu`'s prompts (OnlineExaminationSystem.java:38-48);
  - `studentMenu`'s question and option display and its "Correct!" / "Wrong! The correct answer was: N" lines (OnlineExaminationSystem.java:71-76, 90, 93).
- Floating-point prices: prices are integer cents, so totals are exact where `double` sums may drift.
- `toLowerCase` beyond ASCII: `Catalogue.ToLower` lowers only `A`-`Z`. Locale- and Unicode-specific case mappings are not modelled.
- Menu loops, `Scanner` parsing and invalid-choice handling (ECommerceApp.java:126-221, OnlineExaminationSystem.java:8-29). The search query is one whitespace-free token in the source. The model accepts any string.
- The inner loop reading the four option lines (OnlineExaminationSystem.java:43-46) is folded into the `Entry` record, whose four option fields are those lines in order. A negative question count adds nothing, like an empty entry list.
- The exam `TimerTask` output (OnlineExaminationSystem.java:78-83): only the timer's cancelled state is modelled, because it decides the crash in Findings.
- `score` is a 32-bit `int` in the source. The model's score is unbounded, so wrap-around after 2^31 right answers is not modelled.
