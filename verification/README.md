# Verified models of the cores under uvpp

uvpp is a thin C++ wrapper over libuv and http_parser. This project models, in Dafny, the parts of
the three that hold the difficult state, and proves what they promise:

- the intrusive trees of `libuv/tree.h` (`red_black_*.dfy`, `splay_*.dfy`) and the pointer heap of
  `libuv/src/heap-inl.h` (`pointer_heap.dfy`), as classes whose methods assign the fields that the
  macros assign, against a ghost tree or sequence of nodes;
- the incremental parser of `httpparser/http_parser.c`: `http_types.dfy` and `http_step.dfy` are its
  switch, one pass at a time; `http_run.dfy` feeds it byte by byte, which is the reference;
  `http_callbacks.dfy` lets callbacks fail or pause the parser; `http_execute.dfy` is the loop over a
  buffer with its marks and bulk steps, proved equal to the reference. What the bytes mean is said
  without the switch: `http_method.dfy`, `http_start.dfy`, `http_status_line.dfy` and
  `http_request_line.dfy` for the first line, `http_names.dfy`, `http_headers.dfy`, `http_ends.dfy` and
  `http_keep_alive.dfy` for the headers, `http_body.dfy` and `http_message.dfy` for the body,
  `http_whole.dfy` for all of it, `http_url.dfy`, `http_url_grammar.dfy` and `http_parse_url.dfy` for
  URLs, and `http_segments.dfy`, `http_grammar.dfy` and `http_errors.dfy` for any bytes at all;
- the thread pool of `libuv/src/threadpool.c` (`thread_pool*.dfy`) and the wakeups of
  `libuv/src/unix/async.c` under `uvpp/uvpp_asyncfunctor.h` (`async_wakeup.dfy`, `async_coalescing.dfy`), as interleavings of
  atomic steps of any number of threads, with spurious wakeups;
- the address texts of `libuv/src/inet.c` (`inet4.dfy`, `inet6_text.dfy`, `inet6_grammar.dfy`,
  `inet6_canonical.dfy`, `inet6.dfy`);
- the watcher registry of `libuv/src/unix/core.c` with the drain and the dispatch of
  `libuv/src/unix/linux-core.c` (`io_registry.dfy`, `power_of_two.dfy`), the ownership of handles
  between wrapper and loop (`handle_lifecycle.dfy`), and the contexts of `libuv/src/fs-poll.c`
  (`fs_poll.dfy`); user callbacks may do anything that the API allows, in any order;
- the lists of `libuv/src/queue.h` (`queue.dfy`): every macro does to the links what an operation of
  `lists.dfy` does to a sequence, so the other modules have their queues as sequences. `options.dfy`
  is the result type for what may be missing.

Integers are unbounded except where the width matters and is written out: 64-bit lengths in the
parser, 32-bit sizes in the registry, 16-bit offsets in the URL. Nine properties are false of the
code as it stands; for each there is an input and the exact condition:

- a length or chunk size is the one that is written exactly when it is below 2^64-1
  (`HttpBody.ContentLengthExact`, `HttpMessage.SizeExact`; inputs in `HttpBody.WrapAccepted`,
  `HttpMessage.SizeWraps`);
- a chunk size consists of hexadecimal digits exactly when there is no byte above 127 in it, each of which
  is taken for a 0 (`HttpBody.SizeDigit`; input in `HttpBody.HighDigit`);
- a word is taken for a method exactly when it is its name, or, for the methods whose third letter is not
  looked at, its name with another third letter that leads to no other method
  (`HttpMethod.NamesExactly`, `HttpRequestLine.RequestLineOnly`; input in `HttpMethod.Misspelt`);
- a functor queue is emptied exactly when nothing stands behind an empty functor
  (`AsyncWakeup.EmptiedExactly`; input in `AsyncWakeup.NullStalls`);
- `active_handles` counts the live handles of the queue exactly when no handle whose close is complete
  is active and referenced, and none was when it was freed (`HandleLifecycle.CountRightExactly`; input
  in `HandleLifecycle.CountGoesWrong`);
- the timer heap and the lists of idle, prepare and check handles point to no freed handle exactly when
  none was linked when it was freed, and the one thing that a user can do towards that is to start a
  handle that is closing or closed (`HandleLifecycle.LinkedExactly`, `HandleLifecycle.StartTidy`;
  input in `HandleLifecycle.FreedInHeap`);
- a request whose `done` is under way or over can be cancelled without harm exactly when that `done` did
  not report it cancelled (`ThreadPoolCancel.TurnedDown`; input in `ThreadPoolCancel.CancelledTwice`);
- http_parser_parse_url records the parts of an accepted URL exactly when their offsets and lengths are
  below 2^16 (`HttpParseUrl.HttpParserUrl.ParseUrl`; input in `HttpUrl.LongPath`);
- the watcher array grows with its count for every descriptor that `uv__io_start` accepts except the
  last (`IoRegistry.LastDescriptorWraps`).

Where code and comments differ the code is followed: the parser's test for `ULLONG_MAX` is called an
overflow test (`httpparser/http_parser.c:1484`) and is not one; the space, which the comment on tokens
lists as a separator (`httpparser/http_parser.c:136-141`), may stand in a header name.

## Model

| member | source | states |
|---|---|---|
| RedBlackTree.Head.Insert | libuv/tree.h:597-626 | RB_INSERT puts the new node, and nothing else, at its place in key order, or returns the node with an equal key and changes nothing; the links are again those of a red-black tree |
| RedBlackTree.Head.InsertColor | libuv/tree.h:407-449 | the fix-up after an insertion ends with a black root, no red node below a red one, equal black heights, and the same nodes in the same order |
| RedBlackTree.Head.Remove | libuv/tree.h:530-595 | RB_REMOVE of any node of the tree takes out exactly that node and keeps links, colours, black heights and order |
| RedBlackTree.Head.RemoveColor | libuv/tree.h:451-528 | the fix-up for a path that has lost a black node ends, never meets a missing sibling, and gives a red-black tree with the same nodes in the same order |
| RedBlackShape.RotateLeftAt | libuv/tree.h:342-360 | RB_ROTATE_LEFT, assignment by assignment, turns the linked tree at any place of a larger one and touches no other node |
| RedBlackShape.RotateRightAt | libuv/tree.h:362-380 | the mirror image |
| RedBlackTree.Head.Find | libuv/tree.h:628-644 | RB_FIND returns a node with the key, or null when there is none |
| RedBlackTree.Head.NFind | libuv/tree.h:646-665 | RB_NFIND returns the first node whose key is not below the one sought |
| RedBlackTree.Head.Min | libuv/tree.h:711-724 | RB_MINMAX returns the first node in order |
| RedBlackTree.Head.Max | libuv/tree.h:711-724 | and the last |
| RedBlackTree.Head.Next | libuv/tree.h:667-687 | RB_NEXT of the i-th node is the (i+1)-th, or null after the last |
| RedBlackTree.Head.Prev | libuv/tree.h:689-709 | RB_PREV of the i-th node is the (i-1)-th, or null before the first |
| RedBlackTree.Head.Walk | libuv/tree.h:738-741 | RB_FOREACH visits every node once, in strictly ascending order |
| RedBlackShape.HeightBound | libuv/tree.h:60-61 | a red-black tree of n nodes is at most 2 lg (n + 1) high |
| RedBlackTree.Head.HeightOfTree | libuv/tree.h:60-61 | and so is every tree that the macros have made |
| SplayTree.Head.Splay | libuv/tree.h:209-243 | the top-down splay keeps the nodes and their order, and brings the key, or its neighbour on one side, to the top |
| SplayTree.Head.Find | libuv/tree.h:127-137 | SPLAY_FIND says whether the key is there |
| SplayTree.Head.Insert | libuv/tree.h:163-184 | SPLAY_INSERT adds exactly the new node at its place, or returns the node with an equal key |
| SplayTree.Head.Remove | libuv/tree.h:187-207 | SPLAY_REMOVE takes out exactly the node with the key, or says that there is none |
| SplayTree.Head.MinMax | libuv/tree.h:247-278 | SPLAY_MINMAX brings the first or the last node to the top and keeps the order |
| PointerHeap.Heap.Insert | libuv/src/heap-inl.h:106-148 | heap_insert keeps the complete tree on positions 1 to n, its parent links and the heap order, under any strict weak order, and adds exactly the node |
| PointerHeap.Heap.Remove | libuv/src/heap-inl.h:150-237 | heap_remove of any node keeps the same and takes out exactly that node; of an empty heap it takes nothing |
| PointerHeap.Heap.Dequeue | libuv/src/heap-inl.h:239-241 | heap_dequeue takes out the node at the root |
| PointerHeap.Heap.MinIsLeast | libuv/src/heap-inl.h:34-36 | no node is below the one at `min` |
| PointerHeap.PathTo | libuv/src/heap-inl.h:121-123 | the reversed low bits of n, read from the last, are the way from the root to position n |
| Queue.Remove | libuv/src/queue.h:87-92 | QUEUE_REMOVE takes exactly that element out of the ring |
| Queue.InsertTail | libuv/src/queue.h:78-85 | QUEUE_INSERT_TAIL puts the element last |
| Queue.InsertHead | libuv/src/queue.h:69-76 | QUEUE_INSERT_HEAD puts the element first |
| Queue.RemoveIsWithout | libuv/src/queue.h:87-92 | what QUEUE_REMOVE leaves is what the sequence models call the list without that element |
| Queue.RemoveAlone | libuv/src/queue.h:87-92 | QUEUE_REMOVE of an element that is in no ring changes nothing |
| Queue.Split | libuv/src/queue.h:58-67 | QUEUE_SPLIT makes two rings of one, cut at the element |
| Queue.Add | libuv/src/queue.h:49-56 | QUEUE_ADD puts one list behind the other, also when either is empty |
| HttpExecute.HttpParser.Execute | httpparser/http_parser.c:586-1866 | the buffer loop with its marks and bulk steps, and with callbacks that may fail or pause the parser, leaves the same parser, makes the same callbacks with the same bytes, and takes the same number of bytes as feeding the switch byte by byte; callbacks are made without an error pending |
| HttpCallbacks.ExecuteEnds | httpparser/http_parser.c:55-103 | with a callback that fails or pauses, the callbacks made are the first ones of the undisturbed call, that one is the last of them and the error is the one that names it; without one nothing is different |
| HttpCallbacks.PauseGoesOn | httpparser/http_parser.c:2047-2059 | from the parser that is no longer paused and the bytes not consumed the run goes on to where it would have come without the pause, except that a byte looked at again is counted once more for the header limit |
| HttpCallbacks.PauseExact | httpparser/http_parser.c:1449-1455 | and that makes no difference unless the pause was in a header value that ends with LF alone, or the headers are as long as they may be |
| HttpStatusLine.StatusLineRead | httpparser/http_parser.c:712-888 | a response parser over blank lines and a status line as it is written: major, minor and status are the decimal values of its three runs of digits, each at most 999, and nothing is left of the message before |
| HttpStatusLine.StatusLineOnly | httpparser/http_parser.c:712-888 | and a run that is past the line has read one: whatever is written otherwise, a number above 999 included, is an error |
| HttpStart.NumberRuns | httpparser/http_parser.c:755-888 | digits of any length in any of the five places are read as what they spell if that is at most 999, and are an error otherwise |
| HttpStatusLine.BodylessResponse | httpparser/http_parser.c:712-1663 | a response whose written code is 1xx, 204 or 304 and whose lines give no length and no chunks is complete with the empty line |
| HttpRequestLine.RequestLineRead | httpparser/http_parser.c:889-1193 | a request parser over a request line as it is written, of HTTP/0.9 or with a version: the method is the one that is spelled, the url callback gets exactly the bytes of the target, a URL by the grammar, and the version is that of the digits, or 0.9 |
| HttpRequestLine.RequestLineOnly | httpparser/http_parser.c:889-1193 | and a run that is past the line has read one |
| HttpRequestLine.EitherResponse | httpparser/http_parser.c:675-711 | a parser for both kinds of message reads a response after HT |
| HttpRequestLine.EitherHead | httpparser/http_parser.c:695-711 | a request after HE |
| HttpRequestLine.EitherRequest | httpparser/http_parser.c:675-694 | and a request after any other first byte than H |
| HttpRequestLine.EitherBlank | httpparser/http_parser.c:675-678 | blank lines leave it undecided, and no beginning is notified for them |
| HttpRequestLine.EitherNeither | httpparser/http_parser.c:695-711 | H and another byte is an error |
| HttpMethod.NamesExactly | httpparser/http_parser.c:930-994 | every method's name is taken for it, and nothing else is if and only if its third letter is looked at |
| HttpMethod.Misspelt | httpparser/http_parser.c:979-984 | for the other methods the name with X for its third letter is taken for it too |
| HttpRun.RunKeeps | httpparser/http_parser.c:650-1857 | in every run from a sound parser the header state, matcher index and length are ones that the switch handles without hitting its asserts, and at most one mark is set, that of the state |
| HttpRun.InitBetween | httpparser/http_parser.c:1918-1928 | http_parser_init gives a parser from which those runs may start, for each type |
| HttpRun.RunInRange | httpparser/http_parser.c:930-994 | whatever the input, the method matcher never reads past the end of a method's name |
| HttpSegments.AnySegmentation | httpparser/http_parser.c:586-1866 | a byte string in any non-empty pieces ends in the same parser, error and number of bytes as whole; without an error the callbacks are the same once adjacent data of a kind are joined |
| HttpGrammar.RequestsInOrder | httpparser/http_parser.c:586-1866 | whatever bytes a request parser gets, in whatever pieces, with or without an error at the end: per message begin, url, fields and values, headers complete, body, fields and values, complete |
| HttpGrammar.EndsBetween | httpparser/http_parser.c:604-622 | the end of the input is an error exactly in the middle of a request, as the callbacks made so far have it |
| HttpErrors.ByteBlames | httpparser/http_parser.c:650-1857 | a byte is refused as one too many exactly when 80 KB of header have been read, and any other error is one that the state the parser was in can be blamed for |
| HttpErrors.RunBlames | httpparser/http_parser.c:586-1866 | and so for a run that ends with an error, at the byte that it has come to |
| HttpBody.BodyRun | httpparser/http_parser.c:1665-1694 | a body of known length takes exactly the next that many bytes, and the bulk step is the same as going byte by byte |
| HttpBody.EofBodyRun | httpparser/http_parser.c:1696-1699 | a body without a length takes all there is |
| HttpBody.EofExactly | httpparser/http_parser.c:1600-1663 | past the headers the parser reads until the end of the input exactly when http_message_needs_eof says so, and http_should_keep_alive then says no |
| HttpBody.IdentityBody | httpparser/http_parser.c:1574-1699 | from the end of the headers, a message with Content-Length n > 0: one body callback with exactly the next n bytes, then complete |
| HttpBody.ChunkedBody | httpparser/http_parser.c:1713-1829 | well-formed chunks of any number and size, with extensions, are read without an error, each payload handed over once and in order |
| HttpMessage.ChunkedMessage | httpparser/http_parser.c:1574-1829 | conversely, whatever bytes follow the headers of a chunked message, an error-free run has read chunks, made one body callback for each, and is in the next one or in a trailer of any kind; or it is past the end of the message, up to which there was nothing else |
| HttpMessage.ChunksConserved | httpparser/http_parser.c:1713-1829 | the body callbacks of a whole chunked message get the payloads of its chunks in order, nothing from the size lines, extensions or trailer |
| HttpBody.SizeDigit | httpparser/http_parser.c:175-184 | what counts as which digit of a chunk size: the hexadecimal digits in either case, and every byte above 127 as 0 |
| HttpBody.HighDigit | httpparser/http_parser.c:1713-1727 | a chunk size of the one byte 128 is let through as 0 |
| HttpBody.LengthExact | httpparser/http_parser.c:1477-1490 | the length test gives the true next value exactly when that is below 2^64-1 |
| HttpBody.ContentLengthExact | httpparser/http_parser.c:1414-1421 | the digits of a Content-Length value are stored as what they spell exactly when that is below 2^64-1 |
| HttpBody.WrapAccepted | httpparser/http_parser.c:1477-1490 | 46116860184273879040 is let through as 2^63 |
| HttpMessage.SizeExact | httpparser/http_parser.c:1713-1765 | a chunk size is stored as what it spells exactly when that is below 2^64-1 |
| HttpMessage.SizeWraps | httpparser/http_parser.c:1750-1763 | the chunk size 12000000000000000 is let through as 2000000000000000 |
| HttpNames.NameMeans | httpparser/http_parser.c:1195-1358 | a header name is taken for Content-Length, Transfer-Encoding, Upgrade, Connection or Proxy-Connection exactly when it spells it, in any case, with spaces behind |
| HttpNames.NameRun | httpparser/http_parser.c:1195-1358 | that is what a run over the name leaves |
| HttpNames.ValueMeans | httpparser/http_parser.c:1438-1535 | a value is taken for chunked, keep-alive or close exactly when it spells it, in any case, with spaces behind |
| HttpNames.ValueRun | httpparser/http_parser.c:1375-1535 | that is what a run over the value leaves |
| HttpHeaders.LinesGo | httpparser/http_parser.c:1195-1569 | a block of header lines, each ended by LF or by CR and a byte, and folded any number of times: one callback for each name, each value and each folded line, in order, and the length and the flags are what the lines say |
| HttpHeaders.TokenMeans | httpparser/http_parser.c:136-172 | a header name may consist of the visible characters that are no separators, and of spaces |
| HttpHeaders.BareLine | httpparser/http_parser.c:1351-1368 | a line without a colon makes one callback, for its name, and says nothing |
| HttpHeaders.FlagsSaid | httpparser/http_parser.c:1438-1569 | they say chunked exactly when some Transfer-Encoding line has that value, and upgrade exactly when some Upgrade line has a value |
| HttpHeaders.LengthSaid | httpparser/http_parser.c:1414-1490 | the length is that of the last Content-Length line, and of its last fold |
| HttpHeaders.ContentLengthMessage | httpparser/http_parser.c:1195-1699 | from the header lines on: with a Content-Length n > 0, no chunks and no upgrade, exactly the n bytes behind the headers are handed over, and the message is complete |
| HttpHeaders.ChunkedHeaders | httpparser/http_parser.c:1195-1829 | from the header lines on: with chunks and no upgrade, whatever bytes follow, an error-free run has read chunks, or all of them and a trailer |
| HttpHeaders.NoBodyMessage | httpparser/http_parser.c:1195-1663 | from the header lines on: with the length 0, or none in a request or a response that has no body, the message is complete with the empty line |
| HttpEnds.UpgradeMessage | httpparser/http_parser.c:1574-1635 | after a CONNECT or an Upgrade line with a value the call ends with the empty line: the message is complete and all that follows is left to the application |
| HttpEnds.SkippedMessage | httpparser/http_parser.c:1574-1640 | a message whose body the application skips is complete with the empty line, whatever its length |
| HttpEnds.RefusedMessage | httpparser/http_parser.c:1600-1620 | a message that it refuses is an error at the last byte of its headers |
| HttpKeepAlive.NeedsEofMeans | httpparser/http_parser.c:1871-1891 | after the lines http_message_needs_eof says no exactly for a request, for a response with the code 1xx, 204 or 304 or a skipped body, and when some line says chunked or gives a length |
| HttpKeepAlive.KeepAliveResponse | httpparser/http_parser.c:1894-1909 | from the status line on: http_should_keep_alive says yes exactly if the end is in the bytes and, with a version that has both numbers above zero, no line says close, or else some line says keep-alive |
| HttpKeepAlive.KeepAliveRequest | httpparser/http_parser.c:1894-1909 | and from a request line on, HTTP/0.9 included |
| HttpKeepAlive.EofResponse | httpparser/http_parser.c:712-1699 | a response with any other code and no length and no chunks: all that follows the headers is its body |
| HttpWhole.LengthRequest | httpparser/http_parser.c:889-1699 | from the first byte to the last: a request with a Content-Length makes the callbacks for its target, its lines and exactly that many bytes of body |
| HttpWhole.BodylessRequest | httpparser/http_parser.c:889-1663 | and one without a length none for a body |
| HttpWhole.LengthResponse | httpparser/http_parser.c:712-1699 | the same for a response |
| HttpUrlGrammar.UrlMeans | httpparser/http_parser.c:404-584 | parse_url_char lets a text through with certain runs of bytes for its parts if and only if it is written, by a grammar of scheme, host or address in brackets, port, path, query and fragment with their delimiters and classes of bytes, as a URL or the beginning of one with those parts |
| HttpUrlGrammar.PartsAre | httpparser/http_parser.c:1957-2015 | the bytes at a part's offset are that part |
| HttpParseUrl.HttpParserUrl.ParseUrl | httpparser/http_parser.c:1941-2045 | http_parser_parse_url, for every buffer, succeeds exactly on the URLs of the grammar that are complete, for CONNECT those of a host and a port and nothing else, and whose port, read at its recorded offset, is below 2^16; offsets and lengths are recorded modulo 2^16, so the fields are the parts of the URL exactly when these are short, and then the port is the value of its digits |
| HttpUrl.ShortRuns | httpparser/http_parser.c:2003-2014 | as they all are in a buffer of less than 2^16 bytes |
| HttpUrl.LongPath | httpparser/http_parser.c:2003-2009 | 2^16 slashes are accepted, and recorded as a path of length 0 |
| HttpUrl.PartsApart | httpparser/http_parser.c:404-584 | the parts found are non-empty runs inside the buffer, apart from each other, in the order schema, host, port, path, query, fragment |
| HttpUrl.CutUnique | httpparser/http_parser.c:404-584 | a URL can be cut in one way only |
| ThreadPoolSafety.RunKeeps | libuv/src/threadpool.c:63-241 | every interleaving of workers, submissions, cancels, drains and the exit handler keeps the invariant of queues, requests and locks |
| ThreadPoolSafety.DoneAtMostOnce | libuv/src/threadpool.c:178-241 | each request's done is called at most once, and says cancelled exactly when its work function never ran; that runs at most once |
| ThreadPoolSafety.CancelledNeverRuns | libuv/src/threadpool.c:190-213 | once a cancel has taken a request, no continuation of the run ever runs its work |
| ThreadPoolSafety.NothingLost | libuv/src/threadpool.c:63-241 | when all is quiet every submitted request has had its done |
| ThreadPoolSafety.SomebodyAwake | libuv/src/threadpool.c:63-111 | with work queued and workers asleep some worker is awake, although post signals on an empty queue only |
| ThreadPoolSafety.NeverStuck | libuv/src/threadpool.c:63-136 | then some step other than a spurious wakeup or a new call is possible |
| ThreadPoolSafety.ExitComesLast | libuv/src/threadpool.c:63-136 | no worker leaves while a request posted before the exit message is queued |
| ThreadPoolProgress.StepNearer | libuv/src/threadpool.c:63-241 | without a shutdown every step of a call under way, and the drain that a wakeup asks for, brings the end nearer, in a well-founded order |
| ThreadPoolProgress.SomethingDue | libuv/src/threadpool.c:63-241 | and as long as one request is not done such a step is possible |
| ThreadPoolProgress.AllGetDone | libuv/src/threadpool.c:63-241 | so they lead from any state to one in which every submitted request has had its done, once |
| ThreadPoolCancel.CancelledTwice | libuv/src/threadpool.c:190-241 | a run in which a request that has been reported cancelled is cancelled once more, and its done is called twice |
| ThreadPoolCancel.TurnedDown | libuv/src/threadpool.c:190-203 | for a request that has had its done the test turns a cancel down, and changes nothing, exactly when the node was initialised anew or the work is null, as it is after a done that reported success |
| ThreadPoolCancel.CancelExactly | libuv/src/threadpool.c:190-203 | in every state of a run the test of a cancel succeeds, for a request whose done is to come, if and only if no worker has it and its work has not been run, as is always so while it is in the queue; then it is in no list any more, and the queue is otherwise as it was |
| ThreadPoolCancel.CancelSucceeds | libuv/src/threadpool.c:190-241 | and from there the steps of the cancel and the drain lead to its done, once, with UV_ECANCELED and its work never run |
| ThreadPoolShutdown.StepLower | libuv/src/threadpool.c:63-136 | once the exit handler waits for the workers, every step that is not a new call brings the end nearer, in a well-founded order |
| ThreadPoolShutdown.ExitReachesAll | libuv/src/threadpool.c:115-136 | and the steps under way lead to a state in which every worker has left |
| ThreadPoolSafety.MutexMoves | libuv/src/threadpool.c:58-62 | whoever holds the mutex can go on, or waits for its loop's mutex, whose holder can |
| ThreadPoolSafety.WaitsInOrder | libuv/src/threadpool.c:63-213 | all the others who wait for a lock hold none, so nobody waits in a circle |
| Inet4.ParseExact | libuv/src/inet.c:190-226 | inet_pton4 accepts exactly the texts that inet_ntop4 prints, and reads back the same address |
| Inet4.Ntop | libuv/src/inet.c:53-69 | the text and its zero are written, or UV_ENOSPC is returned exactly when they do not fit |
| Inet4.Pton | libuv/src/inet.c:190-226 | the loop over the characters writes the address of an accepted text, and nothing for another one |
| Inet6.AddressRoundTrip | libuv/src/inet.c:72-158 | for every address inet_pton6 reads back what inet_ntop6 prints, which with its zero fits 46 bytes |
| Inet6Grammar.ParseMeans | libuv/src/inet.c:229-313 | inet_pton6 accepts exactly eight groups of one to four hexadecimal digits, or fewer with one ::, the last two groups in dotted decimal or not, and gives those groups with zeros for the :: |
| Inet6Text.BestCompressed | libuv/src/inet.c:94-117 | :: stands for the leftmost longest run of at least two zero words, and is absent when there is none (section 4.2 of RFC 5952) |
| Inet6Canonical.PrintedExactly | libuv/src/inet.c:72-158 | a text is the one printed for an address if and only if it is canonical: lower-case groups without leading zeros, :: for the leftmost longest run of at least two zero words and nothing else, and dotted decimal for exactly the addresses ::a.b.c.d and ::ffff:a.b.c.d (sections 4 and 5 of RFC 5952) |
| Inet6Canonical.CanonicalUnique | libuv/src/inet.c:72-158 | and each address has one canonical form |
| Inet6.Ntop6 | libuv/src/inet.c:72-158 | the loops over the words write exactly that text, or UV_ENOSPC is returned exactly when it does not fit |
| Inet6.Pton6 | libuv/src/inet.c:229-313 | the loop over the characters, with its shift in place, writes exactly what the reading of the text gives, or nothing |
| PowerOfTwo.NextIsLeast | libuv/src/unix/core.c:740-749 | next_power_of_two is the least power of two at or above its argument, up to 2^31 |
| PowerOfTwo.NextWraps | libuv/src/unix/core.c:740-749 | and 0 exactly outside that range |
| IoRegistry.LastDescriptorWraps | libuv/src/unix/core.c:751-812 | of the descriptors that uv__io_start accepts, the last alone makes maybe_resize ask for no memory while its count covers it |
| IoRegistry.Loop.Start | libuv/src/unix/core.c:803-833 | uv__io_start, for every descriptor that its asserts let through, either asks for an array of no memory, or adds the interest, queues the watcher and puts it in its slot; the cache stays consistent: interest exactly for the watcher in its slot, nfds the occupied slots, what differs from the kernel queued |
| IoRegistry.Loop.Stop | libuv/src/unix/core.c:836-865 | uv__io_stop takes the interest away, empties the slot when none is left and nothing else, and keeps that; its asserts hold |
| IoRegistry.Loop.Drain | libuv/src/unix/linux-core.c:171-209 | the registration drain hits none of its asserts and aborts; afterwards the kernel has for every watcher what is wanted |
| IoRegistry.Loop.Dispatch | libuv/src/unix/linux-core.c:291-350 | with callbacks that start, stop and close watchers and make the array grow: every event of the batch has its turn, in order; a callback is made in it exactly when the descriptor has not been closed since, a watcher is registered for it then, and there is something to tell it, with exactly those flags; the kernel forgets exactly the descriptors that were closed and those that nobody watched at their turn |
| IoRegistry.IdleQueue | libuv/src/unix/linux-core.c:171-174 | with no slot occupied nothing is queued |
| AsyncWakeup.RunKeeps | libuv/src/unix/async.c:60-172 | every interleaving keeps: a set flag has a wakeup written or about to be, and, as long as only callable functors are queued, a queue with functors has its flag set, a drain or a send to come |
| AsyncWakeup.FifoOnce | uvpp/uvpp_asyncfunctor.h:26-59 | in every run each functor that can be called is run at most once, in queue order, and none is skipped |
| AsyncWakeup.PollReturns | libuv/src/unix/async.c:60-69 | no wakeup is lost though sends are coalesced: with callable functors queued and nobody sending, the waiting loop has its eventfd readable |
| AsyncWakeup.LeftToItself | uvpp/uvpp_asyncfunctor.h:37-59 | from any state without a producer in the middle of a call the loop comes to sleep, and leaves in each queue, and has run, exactly what Final and FinalRan say |
| AsyncWakeup.DrainsToNull | uvpp/uvpp_asyncfunctor.h:37-59 | from the poll: a marked handle keeps exactly what stands behind the first empty functor |
| AsyncWakeup.EmptiedExactly | uvpp/uvpp_asyncfunctor.h:37-59 | so its queue is emptied exactly when nothing stands behind an empty functor |
| AsyncWakeup.DrainsAll | uvpp/uvpp_asyncfunctor.h:37-59 | where all functors can be called everything is run, in order |
| AsyncWakeup.NullStalls | uvpp/uvpp_asyncfunctor.h:51-57 | a run after which a functor is queued, no flag is set and nothing will wake the loop |
| AsyncCoalescing.CounterBounded | libuv/src/unix/async.c:60-69 | sends are coalesced: in every run, however many functors are queued, no more than three wakeups for each handle are in the eventfd |
| HandleLifecycle.Loop.RunClosing | libuv/src/unix/core.c:264-276 | a pass over the closing list, with callbacks that do anything: no handle is freed twice; every handle that was closing is closed afterwards, or freed if its wrapper is gone; each close callback is run at most once and while its wrapper lives; if no callback starts a timer, idle, prepare or check handle that is closing or closed, none of the loop's lists points to a freed handle |
| HandleLifecycle.Loop.FinishClose | libuv/src/unix/core.c:216-261 | uv__finish_close with handle_close_cb, and with whatever the callbacks of a stream's pending requests do in the middle of it: the asserts hold, the handle leaves the queue unreferenced, its wrapper learns of it, and is called back exactly if it has a close callback by then, or it is freed |
| HandleLifecycle.Loop.Destroy | uvpp/uvpp_handle.h:24-36 | the destructor frees a closed handle, leaves one that is closing to its callback, and closes another |
| HandleLifecycle.Loop.Start | libuv/src/unix/timer.c:62-92 | uv_timer_start, the start of the watchers and the bare macro: active afterwards, linked into the list of the type, counted if referenced; nothing else changes and nothing asks whether the handle is closing |
| HandleLifecycle.Loop.Stop | libuv/src/unix/timer.c:93-103 | the reverse, for an active handle; nothing for another |
| HandleLifecycle.LinkedExactly | libuv/src/unix/timer.c:83-86 | the loop's lists point to handles that are there only, exactly when no handle was linked when it was freed |
| HandleLifecycle.FreedExactly | uvpp/uvpp_handle.h:24-30 | freeing a closed handle leaves a pointer to it exactly when it is an active timer or watcher |
| HandleLifecycle.StartTidy | libuv/src/unix/loop-watcher.c:32-39 | from a state with no closing handle linked, a start leads out of it exactly when it is that of a timer or watcher that is closing or closed |
| HandleLifecycle.FreedInHeap | uvpp/uvpp_handle.h:24-30 | close, start, a pass of the loop, the destructor: the timer is freed and in the timer heap |
| HandleLifecycle.SettledOwned | uvpp/uvpp_handle.h:24-36 | a handle that is closed and not freed has its wrapper |
| HandleLifecycle.NoLeak | uvpp/uvpp_handle.h:92-110 | with the closing list empty every raw handle left has a living wrapper |
| HandleLifecycle.CountRightExactly | libuv/src/uv-common.h:138-193 | active_handles is the number of handles of the queue that are active and referenced exactly when no handle whose close is complete is both, and none was when it was freed |
| HandleLifecycle.ChangeRight | libuv/src/uv-common.h:159-193 | the start, stop, ref and unref macros keep the counter right except on a handle whose close is complete and that has both flags afterwards |
| HandleLifecycle.CountGoesWrong | libuv/src/uv-common.h:159-193 | close, start, a pass of the loop, ref: the counter is 1 and the queue empty |
| FsPoll.Loop.PollCb | libuv/src/fs-poll.c:171-218 | the callback is made for an active handle only, by its present context, and exactly for what is new; then the timer is armed 1 to interval ahead on the grid of the intervals, or closed if the handle has been stopped, before or in the callback |
| FsPoll.ToldExactly | libuv/src/fs-poll.c:171-218 | in every state of a run the calls made for a context are, one by one, exactly those for what is new in the results that it has had: an error that is not the one before, or a success after an error or with another stat, but not the first success; each with the handle, the status and both stats |
| FsPoll.Loop.Stop | libuv/src/fs-poll.c:104-125 | a stopped handle lets go of its context; a timer that runs is closed, which it was not before, and otherwise a stat or poll_cb is under way |
| FsPoll.Loop.TimerCb | libuv/src/fs-poll.c:158-168 | the asserts hold, and the request is not in use when it is started |
| FsPoll.Loop.TimerCloseCb | libuv/src/fs-poll.c:221-223 | a context is freed once, stopped, with neither timer nor request in use |
| FsPoll.DelayLands | libuv/src/fs-poll.c:212-217 | the delay is 1 to interval and lands a whole number of intervals after the last start |

## Left out

- HttpExecute.HttpParser.Execute: what a callback does is a function of the parser and the event that it sees, in one call.
- HttpSegments.AnySegmentation: the callbacks other than on_headers_complete succeed and do not pause the parser (HttpCallbacks says what is different if they do not); on_headers_complete is a function of the parser it sees; the parser is not one that has returned for an upgrade; on an error the data callbacks are not compared, because pending marks are dropped there.
- HttpGrammar.RequestsInOrder: request parsers only, because a response parser also notifies a beginning for each leading blank line.
- HttpMessage.ChunkedMessage: messages that are not upgraded and whose body is not skipped; the payload of a chunk is as long as its size in 64 bits, which is the size that is written below 2^64-1 (SizeExact).
- HttpBody.IdentityBody: the same restriction; a body of length 0 has no bytes to conserve (HttpHeaders.NoBodyMessage).
- HttpHeaders.LinesGo: a Content-Length below 2^64-1 (ContentLengthExact), and lines with a colon; HttpHeaders.BareLine is for one without, which is not folded.
- HttpStatusLine.StatusLineRead: lines within the limit of the headers, behind which every byte is an error (HttpErrors.ByteBlames); so for HttpRequestLine.RequestLineRead.
- HttpParseUrl.HttpParserUrl.ParseUrl: strtoul is taken to stop at the end of the buffer, behind which the code lets it read.
- IoRegistry.Loop.Start: what follows after it has asked for no memory, which is an abort or a write outside; a callback of IoRegistry.Loop.Dispatch does not get there.
- ThreadPoolShutdown.ExitReachesAll: says that the calls under way lead there and that no run without new calls goes on for ever; with new calls for ever it depends on the scheduler.
- RB_AUGMENT, which is empty, and SPLAY_NEXT, which repeats a lookup; comparison functions of the trees are the order of integer keys, those of the heap any strict weak order.
- 32-bit wrap-around of the heap's count and of the clock of the timers.
- Memory order weaker than sequential consistency, the pipe that replaces an eventfd on old kernels, and the number of threads read from the environment (any number of workers is allowed).
- Failing allocations, and the error returns that follow them.
- uv__io_feed and the queue of pending watchers; the timeouts of uv__io_poll and its retries; epoll events are any batch for registered descriptors.
- HandleLifecycle.Loop.RunClosing: what the loop does with its lists once a freed handle is in one; the lists of the other handle types, and the io watchers, that start and stop do not link.
- Signal handles, which enter the closing list later; the close of a type other than timer, idle, prepare and check is modelled by whether it stops the handle.
- uv_run and uv__loop_alive, except that a counter that stays above zero keeps the loop alive (HandleLifecycle.LostStaysAlive).
- uv_fs_poll_getpath, statbuf_eq (a result is an integer) and a failing uv_fs_stat, which aborts.
- The scope identifier of inet_pton6's caller, and other address families.
- The strict build of http_parser.
