# DroidInspectorServer core, modelled in Dafny

DroidInspectorServer is an in-app server that sends a running Android view hierarchy to a
desktop inspector. This project models its three pieces of logic:

- **JsonPrinter** walks a view tree and streams nested object literals of the form
  `{ <properties> [<background>] [<content>], 'children':[<child>,...]}`. The properties
  are name, id, hashCode, bounds, padding, an optional margin, an optional drawablePadding
  and a visibility code. The background is a colour or a PNG image. The content is a PNG
  of the view's own `onDraw`, kept only if that drawing touched the canvas.
- **ViewServer** holds the window registry, a map from root view to name plus one
  focused root. It has a start/stop life cycle, and each connection reads one request
  line (`print`, optionally followed by `json`).
- **ProxyCanvas** is a Canvas that remembers whether any of the methods it overrides was
  called. `wasTouched` and the Canvas methods it does not override leave the flag alone.

Files:

- `wrappers.dfy`: `Option`.
- `text.dfy`: the Java string and integer behaviour the output depends on. This covers
  `int` in decimal, `Integer.toHexString`, `indexOf`, `contains` and `equalsIgnoreCase`.
  Each rendering comes with a parser, so round trips can be stated.
- `canvas.dfy`: `ProxyCanvas` as a class with the `touched` field.
- `views.dfy`: the View datatype and the constants `VISIBLE`, `INVISIBLE`, `GONE` and
  `NO_ID`.
- `json_printer.dfy`: the printer.
  - Its pure parts are functions.
  - `printHierarchy` is a recursive method that appends to a `Writer`. It is proved to
    write exactly `Output(Print(v))`, the text of the printed tree.
  - `getContent`'s save/hide/restore of the child visibilities works on an array.
- `view_server.dfy`: the server.
  - `ViewServer` is a class whose methods follow the pure transition functions
    `StartResult`, `StopResult` and `BindResult`.
  - The request line is parsed by pure functions.
  - `NoopViewServer` is the do-nothing variant. Its start, stop and isRunning report
    false; its six registry and focus methods have no fields to change and do nothing.

Modelling choices:

- The hand-off to the UI thread (`Handler.post` and `FutureTask.get`) is a direct
  evaluation. A `Capture` is either a fragment, possibly absent, or `Failed`.
- `Failed` stands for a wait that was interrupted or whose task threw. Two things cause
  it:
  - the view's `render.interrupted` set, which gives the waits that fail;
  - the exception `Bitmap.createBitmap` throws for a negative size.
- Resource lookups are partial maps. A missing key is `Resources.NotFoundException`.
- `onDraw` is found through the class chain. Each entry is either a class that does not
  declare `onDraw` or the canvas calls that class's `onDraw` makes.
- `getRootView` is a function fixed when the server is constructed. Views are compared
  as values.

## Model

| member | source | states |
|---|---|---|
| Text.IntToStringRoundTrip | src/com/sriramramani/droid/inspector/server/JsonPrinter.java:167-169 | an int written in decimal by string concatenation reads back as the same int |
| Text.IntToString | src/com/sriramramani/droid/inspector/server/JsonPrinter.java:167-169 | the decimal text is a sign exactly for negative ints followed by digits only, with no leading zero except for 0 itself |
| Text.HexString | src/com/sriramramani/droid/inspector/server/JsonPrinter.java:209 | `Integer.toHexString` gives 1 to 8 lower-case hex digits with no leading zero, except for 0 itself |
| Text.HexStringRoundTrip | src/com/sriramramani/droid/inspector/server/JsonPrinter.java:209 | the hex text reads back as the same 32 bits, so negative colours are written as unsigned |
| Text.IndexOf | src/com/sriramramani/droid/inspector/server/ViewServer.java:475 | `indexOf(char)` is -1 exactly when the character is absent; otherwise it is the first index holding it |
| Text.ContainsIffOccurs | src/com/sriramramani/droid/inspector/server/JsonPrinter.java:327-329 | `contains` holds exactly when the text occurs at some index |
| Canvas.ProxyCanvas.constructor | src/com/sriramramani/droid/inspector/server/ProxyCanvas.java:26-34 | a new canvas is untouched |
| Canvas.ProxyCanvas.WasTouched | src/com/sriramramani/droid/inspector/server/ProxyCanvas.java:36-38 | returns the flag and changes nothing |
| Canvas.ProxyCanvas.Call | src/com/sriramramani/droid/inspector/server/ProxyCanvas.java:41-573 | every overridden method, including the queries, setBitmap and the Object methods, sets the flag |
| Canvas.ProxyCanvas.Receive | src/com/sriramramani/droid/inspector/server/ProxyCanvas.java:41-573 | after a sequence of calls the flag is `TouchedAfter` of the old flag and the calls |
| Canvas.TouchedAfterIff | src/com/sriramramani/droid/inspector/server/ProxyCanvas.java:26-573 | the flag is set after the calls exactly when it was set before or at least one call was made |
| Canvas.TouchedIsMonotonic | src/com/sriramramani/droid/inspector/server/ProxyCanvas.java:26-573 | no further calls clear a set flag |
| JsonPrinter.IdName | src/com/sriramramani/droid/inspector/server/JsonPrinter.java:132-163 | the id text is empty exactly when the id is NO_ID or 0, there are no resources, or a lookup fails; otherwise it is `[@pkg:type/entry]`, with pkg `app` for top byte 0x7f and `android` for 0x01 |
| JsonPrinter.IdTextRoundTrip | src/com/sriramramani/droid/inspector/server/JsonPrinter.java:153-160 | the package, type and entry names can be read back from the id text |
| JsonPrinter.VisibilityCode | src/com/sriramramani/droid/inspector/server/JsonPrinter.java:183-189 | the code is 1 exactly for VISIBLE, -1 exactly for INVISIBLE, and 0 exactly otherwise |
| JsonPrinter.PropertyFieldsOrder | src/com/sriramramani/droid/inspector/server/JsonPrinter.java:165-191 | name, id, hashCode, bounds and padding come first and the visibility code last; bounds are left, top, width and height; there are 6 fields plus one per optional field |
| JsonPrinter.PropertyFieldsOptional | src/com/sriramramani/droid/inspector/server/JsonPrinter.java:171-182 | margin is present exactly for margin layout params, and drawablePadding exactly when a background exists |
| JsonPrinter.GetBitmap | src/com/sriramramani/droid/inspector/server/JsonPrinter.java:302-314 | zero width or height gives no bitmap; a bitmap exists exactly for positive sizes when this allocation finds memory; a negative size throws |
| JsonPrinter.ColorFragmentRoundTrip | src/com/sriramramani/droid/inspector/server/JsonPrinter.java:205-209 | the colour fragment carries all 32 bits of the colour |
| JsonPrinter.BackgroundCapture | src/com/sriramramani/droid/inspector/server/JsonPrinter.java:196-235 | absent exactly when the view is not VISIBLE, has no background, has colour 0, or gets no bitmap; fails exactly when the bitmap throws; otherwise a colour background is `, 'backgroundColor':'#` + `Integer.toHexString` of the colour + `'` (which reads back as the colour), and any other drawable is the `backgroundImage` PNG fragment |
| JsonPrinter.FirstOnDraw | src/com/sriramramani/droid/inspector/server/JsonPrinter.java:267-278 | the drawing used is that of the first class in the chain that declares `onDraw`; there is none only when no class declares it |
| JsonPrinter.ContentCapture | src/com/sriramramani/droid/inspector/server/JsonPrinter.java:238-300 | fails exactly when the bitmap throws; the content is present exactly for a VISIBLE non-PhoneWindow view with a bitmap whose `onDraw` touches the canvas, and it is then the PNG fragment |
| JsonPrinter.ZeroSizeHasNoImages | src/com/sriramramani/droid/inspector/server/JsonPrinter.java:302-305 | a view of zero width or height has no content and no background image |
| JsonPrinter.UntouchedCanvasOmitsContent | src/com/sriramramani/droid/inspector/server/JsonPrinter.java:267-293 | if no class declares `onDraw`, or the first one that does makes no canvas call, the content is absent |
| JsonPrinter.Await | src/com/sriramramani/droid/inspector/server/JsonPrinter.java:81-99 | a wait that is interrupted fails; otherwise it yields the capture |
| JsonPrinter.AwaitedBody | src/com/sriramramani/droid/inspector/server/JsonPrinter.java:81-100 | over any properties text and captures: a failed properties wait writes nothing, a failed background wait keeps the properties, a failed content wait keeps the properties and the background, and with no failure all three are written |
| JsonPrinter.NodeBody | src/com/sriramramani/droid/inspector/server/JsonPrinter.java:79-100 | the node body is a prefix of properties + background + content; a failed properties wait gives nothing; a failed background wait leaves just the properties; a failed content wait leaves the properties and the background; with no failure it is the whole text |
| JsonPrinter.JoinedPrefix | src/com/sriramramani/droid/inspector/server/JsonPrinter.java:104-115 | after k children the loop has written their texts comma-separated, plus one `,` if more children follow |
| JsonPrinter.TextShape | src/com/sriramramani/droid/inspector/server/JsonPrinter.java:79-117 | a node is `{` + body + `, 'children':[` + children comma-separated with no trailing comma (empty for a non-group) + `]}` |
| JsonPrinter.PrintedText | src/com/sriramramani/droid/inspector/server/JsonPrinter.java:79-117 | the children section is written even after a failed wait, and child i's text is that of the i-th child view |
| JsonPrinter.DrawWithOwnClass | src/com/sriramramani/droid/inspector/server/JsonPrinter.java:267-278 | the canvas receives exactly the calls of the first declared `onDraw`, or none |
| JsonPrinter.SaveAndHide | src/com/sriramramani/droid/inspector/server/JsonPrinter.java:251-265 | the saved array is the old visibilities, and only VISIBLE children become INVISIBLE |
| JsonPrinter.Restore | src/com/sriramramani/droid/inspector/server/JsonPrinter.java:280-289 | every child gets its saved visibility back |
| JsonPrinter.CaptureContent | src/com/sriramramani/droid/inspector/server/JsonPrinter.java:238-300 | the result is `ContentCapture`; every child's visibility equals its saved value afterwards; while drawing, the visible children were hidden |
| JsonPrinter.RunContentCapture | src/com/sriramramani/droid/inspector/server/JsonPrinter.java:68-73 | running the capture over the children's visibilities yields `ContentCapture` |
| JsonPrinter.WriteBody | src/com/sriramramani/droid/inspector/server/JsonPrinter.java:81-99 | writes the fragments up to the first failed wait |
| JsonPrinter.WriteNodeBody | src/com/sriramramani/droid/inspector/server/JsonPrinter.java:79-100 | appends exactly the node body |
| JsonPrinter.WriteChildren | src/com/sriramramani/droid/inspector/server/JsonPrinter.java:104-114 | appends the children in index order, separated by `,` |
| JsonPrinter.WriteChild | src/com/sriramramani/droid/inspector/server/JsonPrinter.java:108-112 | one iteration appends the child's text and `,` unless it is the last child |
| JsonPrinter.PrintHierarchy | src/com/sriramramani/droid/inspector/server/JsonPrinter.java:46-119 | appends exactly the text of the printed tree of the view, and returns true |
| Server.SplitRequest | src/com/sriramramani/droid/inspector/server/ViewServer.java:475-482 | with no space the line is the command and the parameters are empty; otherwise command + " " + parameters is the line and the command has no space |
| Server.SplitRequestRoundTrip | src/com/sriramramani/droid/inspector/server/ViewServer.java:475-482 | a space-free command and any parameters are recovered from the line they form |
| Server.WantsJsonExactly | src/com/sriramramani/droid/inspector/server/ViewServer.java:484-487 | the parameters select the object grammar exactly when they are `json` in any case, with the long s also accepted |
| Server.IsPrintCommandExactly | src/com/sriramramani/droid/inspector/server/ViewServer.java:489-490 | the command is `print` exactly when it is `print` in any case, with the dotless i and dotted capital I also accepted |
| Server.Dispatch | src/com/sriramramani/droid/inspector/server/ViewServer.java:465-507 | a printer runs exactly for a `print` line on an open output with a focused window; it is the object printer exactly when the parameters are `json`; it prints the focused window |
| Server.OtherCommandsIgnored | src/com/sriramramani/droid/inspector/server/ViewServer.java:489-507 | any other command does nothing, whatever its parameters |
| Server.UntitledActivityName | src/com/sriramramani/droid/inspector/server/ViewServer.java:238-242 | with an empty title the name is the class name, `/0x`, and the identity hash in decimal |
| Server.TitledActivityName | src/com/sriramramani/droid/inspector/server/ViewServer.java:243-245 | otherwise the name is the title followed by the class name in parentheses |
| Server.StartResult | src/com/sriramramani/droid/inspector/server/ViewServer.java:154-165 | start refuses and changes nothing when a thread exists; otherwise it creates the thread and the pool and returns true |
| Server.StartTwice | src/com/sriramramani/droid/inspector/server/ViewServer.java:154-158 | a second start is refused and changes nothing |
| Server.StopBeforeBindThrows | src/com/sriramramani/droid/inspector/server/ViewServer.java:177-193 | as written, stopping a started server whose socket is not bound throws NullPointerException |
| Server.StopResult | src/com/sriramramani/droid/inspector/server/ViewServer.java:177-215 | see Findings. Stop never leaves a thread. It returns true exactly for a started server whose socket is absent or closes without error, and then the registry is kept. Otherwise the registry and focus are cleared. With a bound socket it has the outcome of `stop()` as written (`StopAsWritten`) |
| Server.StopThenStart | src/com/sriramramani/droid/inspector/server/ViewServer.java:154-215 | after stopping a started server it can start again, and a successful stop keeps the registry |
| Server.BindResult | src/com/sriramramani/droid/inspector/server/ViewServer.java:326-330 | binding sets the socket only when it succeeds and changes nothing else |
| Server.ViewServer.constructor | src/com/sriramramani/droid/inspector/server/ViewServer.java:140-142 | a new server has no thread, pool or socket, an empty registry and no focus |
| Server.ViewServer.Start | src/com/sriramramani/droid/inspector/server/ViewServer.java:154-165 | follows `StartResult` |
| Server.ViewServer.Stop | src/com/sriramramani/droid/inspector/server/ViewServer.java:177-215 | follows `StopResult` |
| Server.ViewServer.Bind | src/com/sriramramani/droid/inspector/server/ViewServer.java:325-330 | follows `BindResult` |
| Server.ViewServer.IsRunning | src/com/sriramramani/droid/inspector/server/ViewServer.java:226-228 | running exactly when a thread exists and is alive |
| Server.ViewServer.AddWindow | src/com/sriramramani/droid/inspector/server/ViewServer.java:269-277 | maps the view's root to the name, overwriting; nothing else changes |
| Server.ViewServer.RemoveWindow | src/com/sriramramani/droid/inspector/server/ViewServer.java:286-294 | deletes the root's entry; nothing else changes |
| Server.ViewServer.SetFocusedWindow | src/com/sriramramani/droid/inspector/server/ViewServer.java:312-320 | null clears the focus; otherwise focus becomes the view's root; nothing else changes |
| Server.ViewServer.AddActivity | src/com/sriramramani/droid/inspector/server/ViewServer.java:238-248 | registers the decor view's root under `ActivityName` |
| Server.ViewServer.RemoveActivity | src/com/sriramramani/droid/inspector/server/ViewServer.java:257-259 | unregisters the decor view's root |
| Server.ViewServer.SetFocusedActivity | src/com/sriramramani/droid/inspector/server/ViewServer.java:296-304 | see Findings: the corrected overload; null clears the focus, any other activity focuses its decor view's root (`FocusActivity`); nothing else changes |
| Server.NullActivityThrows | src/com/sriramramani/droid/inspector/server/ViewServer.java:302-304 | as written, passing null to remove focus throws NullPointerException at `activity.getWindow()` |
| Server.FocusActivity | src/com/sriramramani/droid/inspector/server/ViewServer.java:296-304 | the focus is cleared exactly for null, as documented; for any other activity it is its decor view's root, which is what the code as written sets |
| Server.ViewServer.Serve | src/com/sriramramani/droid/inspector/server/ViewServer.java:465-507 | the action is `Dispatch` of the line; the output gains exactly the printed tree of the focused window when the object grammar is chosen, and nothing otherwise |
| Server.AddThenRemove | src/com/sriramramani/droid/inspector/server/ViewServer.java:269-294 | on the registry maps that `ViewServer.AddWindow` and `ViewServer.RemoveWindow` produce: adding and then removing a root leaves the other entries as they were, and restores the map when the root was absent |
| Server.AddTwice | src/com/sriramramani/droid/inspector/server/ViewServer.java:269-277 | on the registry map after two `ViewServer.AddWindow` calls: a later name for the same root replaces the earlier one |
| Server.RemoveAbsent | src/com/sriramramani/droid/inspector/server/ViewServer.java:286-294 | on the registry map `ViewServer.RemoveWindow` produces: removing an unregistered root changes nothing |
| Server.NoopViewServer.Start | src/com/sriramramani/droid/inspector/server/ViewServer.java:414-416 | the no-op server never starts |
| Server.NoopViewServer.Stop | src/com/sriramramani/droid/inspector/server/ViewServer.java:419-421 | the no-op server reports false from stop |
| Server.NoopViewServer.IsRunning | src/com/sriramramani/droid/inspector/server/ViewServer.java:424-426 | the no-op server never runs |

## Left out

- Server socket, accept loop, thread pool, `UncloseableOuputStream` and the stream setup of
  a connection are not modelled. They are I/O and concurrency. A connection is modelled
  from its request line (`None` for end of stream) to the action taken and the text
  written.
- Read/write locks and the listener list are not modelled. They are concurrency, and
  nothing registers a listener, so the fire methods do nothing.
- `ViewServer.get`, the singleton and the debuggable-build check depend on Android
  application info. `Thread.isAlive` is a parameter of `IsRunning`.
- `Handler.post` and `FutureTask.get` are direct evaluations. The only cross-thread
  effect kept is a failing wait.
- `view.getHandler()` returning null is not modelled. That happens for a view not
  attached to a window, and the NullPointerException then escapes `printHierarchy` after
  the ancestors' text is written. In the model every view has a handler.
- Bitmap allocation, PNG compression and Base64 encoding are foreign library calls.
  - The image is an opaque string after the `data:image/png;base64,` prefix.
  - Running out of memory is one flag per allocation: `render.backgroundAllocates` for
    getBackground's bitmap and `render.contentAllocates` for getContent's.
- Background painting and the scroll translation are not modelled. They are Canvas
  internals with no effect on the output text.
- A throwing `onDraw` is not modelled. The source's `catch (Exception e) {}` does not
  advance the class, so it retries forever.
- The Canvas superclass behind every `super.` call in ProxyCanvas is not modelled; only
  the flag is. Overloads share one `CanvasOp`, and arguments and return values are not
  modelled.
- The XML printer is not part of this model.
  - `Serve` reports the `PrintXml` action and writes nothing for it.
  - A null focused window makes JsonPrinter throw at `view.getHandler()` before it writes
    anything, which `Dispatch` models as `Ignored`. XMLPrinter is not part of this model,
    so `Dispatch` assumes it behaves the same on a null window.
- `flush` and `close` of the writer are not modelled. The text is accumulated whole.
- `Activity.getTitle()` returning null is not modelled. The title is a string, and an
  empty string plays `TextUtils.isEmpty`.
- Case mapping in `equalsIgnoreCase` is not modelled beyond the letters that matter.
  - It covers ASCII plus the four characters whose Java case mapping lands in ASCII:
    U+0131, U+017F, U+0130 and U+212A.
  - Comparisons against `print` and `json` are exact with it.
- View identity is structural: two equal View values are one registry key.
- `CaptureContent` does not model re-reading the child count between its two loops. The
  count is the array length, so a count that changes while drawing is not modelled.
- `stop()`'s `shutdownNow` SecurityException is not modelled. It is caught and only
  logged.

## Findings

| source | as written | input that shows it | evidently intended | confidence | as-written member | corrected member |
|---|---|---|---|---|---|---|
| src/com/sriramramani/droid/inspector/server/ViewServer.java:177-193 | `stop()` calls `mServer.close()` whenever a thread exists, but `mServer` is only set by `run()` on the server thread, and stays null if binding failed (lines 326-330) | `start()` followed by `stop()` before the thread has bound the socket, or after `new ServerSocket` threw: `close()` on null throws NullPointerException, which is not caught (only IOException is) | stopping a started server with no socket has nothing to close and stops it | not executed; high that the path exists | Server.StopAsWritten, Server.StopBeforeBindThrows | Server.StopResult, Server.ViewServer.Stop |
| src/com/sriramramani/droid/inspector/server/ViewServer.java:296-304 | `setFocusedWindow(Activity)` is documented to take null to remove focus, but calls `activity.getWindow()` on it | `setFocusedWindow((Activity) null)`: NullPointerException, and the focus stays | null clears the focus, as `setFocusedWindow((View) null)` does | not executed; high that the path exists | Server.FocusActivityAsWritten, Server.NullActivityThrows | Server.FocusActivity, Server.ViewServer.SetFocusedActivity |
