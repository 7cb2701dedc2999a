# xautolock system tray icon, modelled in Dafny

xautolock can show a small icon in the desktop's notification area
while a "nolock" corner is engaged. `src/trayicon.c` implements that icon in
three parts, and each is modelled here:

- **Icon rendering** (`createIconPixmap`): a fixed 24x24 lock-with-slash glyph,
  stored as XPM text, is drawn point by point into a pixmap. `.` is drawn
  black, `+` red, `@` white, and any other character light gray (`0xC0C0C0`).
  When red cannot be allocated, white is drawn instead.
- **Locating the tray and docking** (`initTrayIcon`, and the message that
  `showTrayIcon` sends): the icon follows the freedesktop.org System Tray
  Protocol Specification. It looks for the owner of the selection
  `_NET_SYSTEM_TRAY_S<screen>` (section "Locating the system tray"). It then
  sends that owner a `SYSTEM_TRAY_REQUEST_DOCK` opcode message (section
  "Docking a tray icon").
- **Visibility** (`showTrayIcon`, `hideTrayIcon`): the module globals
  `trayWindow`, `iconWindow` and `iconVisible` guard the calls. As a result,
  show and hide are idempotent, and the whole feature does nothing when no
  tray manager exists.

Files:

- `wrappers.dfy`: `Option`.
- `icon_pixmap.dfy` (module `IconPixmap`): the glyph constant, the colour
  choice, the rasterising method `CreateIconPixmap` over an `array2`, and the
  lemmas about what it draws.
- `tray_protocol.dfy` (module `TrayProtocol`): `%d` formatting of the screen
  number, the selection name, and the dock request message with the way a
  tray manager reads it.
- `tray_icon.dfy` (module `TrayIcon`): the class `Tray`, whose fields are the
  module globals. Its ghost field `effects` records the requests sent to the
  X server. Pure functions (`InitState`, `AfterShow`, `ShowEffects`,
  `AfterHide`, `HideEffects`, `Run`) specify the methods. The multi-call
  lemmas are stated about these functions.

The X server is not modelled. Each reply it gives becomes an input of the
method that asks for it:

- the interned atoms;
- the selection owner;
- the created window;
- the screen's black and white pixels;
- the outcome of allocating red, as an `Option`.

These requests are recorded as an `Effect` in the trace:

- interning an atom;
- querying the selection owner;
- creating the icon window;
- selecting its input;
- sending the dock request;
- setting the window background;
- mapping and unmapping the window;
- flushing.

The drawing requests are represented differently:

- Each `XSetForeground` and `XDrawPoint` pair becomes one `Plot(x, y, pixel)`, where `pixel` is the GC foreground at that moment.
- `CreateIconPixmap` returns the list of plots in drawing order and also fills the pixmap (an `array2`).
- The trace carries that list inside its `SetBackground` effect.
- `XAllocNamedColor` is an input (the `Option` of red), not an effect.
- The requests that create and free the pixmap and the GC (`XCreatePixmap`, `XCreateGC`, `XFreeGC`, `XFreePixmap`) are not recorded.

Atoms, windows and pixels are `nat`, with 0 meaning
"none". The screen number is a C `int`. The X11 constants `ClientMessage`
(33), `CurrentTime` (0) and `NoEventMask` (0) are the protocol's standard
values. `X.h` is not part of this model.

Two behaviours of the code are easy to miss:

- Any character other than `.`, `+` and `@` is drawn light gray, not only a
  space.
- When no selection owner exists, `initTrayIcon` clears `trayWindow` but
  leaves `iconWindow` as it was (`InitState`). The class method `Init` is
  called only once, on the initial globals, so there `iconWindow` stays 0.

## Model

| member | source | states |
|---|---|---|
| `IconPixmap.GlyphCoversLoop` | src/trayicon.c:116-121 | The glyph has 29 entries, and entries 5..28 are 24 characters each. So every `lockSlashXpm[y + 5][x]` the loops read is in bounds, and the guards `y + 5 < 29` and `x < 24` hold whenever `y < height` and `x < width` do. |
| `IconPixmap.ForegroundFor` | src/trayicon.c:123-141 | The foreground of a cell is one of black, accent, white and `0xC0C0C0`. Every character other than `.`, `+` and `@` gets `0xC0C0C0`. |
| `IconPixmap.CreateIconPixmap` | src/trayicon.c:78-149 | Allocates a fresh 24x24 pixmap. Draws the glyph row by row, and returns the plots in drawing order (`GridPlots`). Cell (x, y) of the pixmap holds the foreground of glyph entry y+5, column x, under the palette whose accent is red or, when allocation failed, white. |
| `IconPixmap.DrawRow` | src/trayicon.c:119-144 | The inner loop: draws the 24 cells of row y, in order, each with its character's foreground. It leaves every other row of the pixmap unchanged. |
| `IconPixmap.RowPlotsAt` | src/trayicon.c:119-144 | The inner loop plots n points, and the i-th one is at (i, y) with the foreground of column i. |
| `IconPixmap.GridPlotsAt` | src/trayicon.c:116-145 | The first m rows give 24·m plots. Plot i is at (i mod 24, i div 24) and has the foreground of that cell's glyph character. |
| `IconPixmap.EveryCellPlottedOnce` | src/trayicon.c:116-145 | Rendering plots exactly 576 points, each with 0 ≤ x, y < 24, and no two at the same cell. Cell (x, y) is plot 24·y + x and has the colour of glyph entry y+5, column x. |
| `IconPixmap.RedFallbackDrawsAccentWhite` | src/trayicon.c:97-104 | When red cannot be allocated, rendering still draws all 576 points. Every `+` cell is drawn white, and every other point is identical to the rendering with red. |
| `IconPixmap.CountPixelAppend` | src/trayicon.c:143 | Counting the points of a given colour is additive over consecutive drawing runs. |
| `IconPixmap.RowGrayCount` | src/trayicon.c:119-144 | Within one row, the light-gray points equal the transparent characters drawn so far (provided black, white and the accent differ from that gray). |
| `IconPixmap.GridGrayCount` | src/trayicon.c:116-145 | Over the first m rows, the light-gray points equal the transparent characters of entries 5..5+m-1 (same proviso). |
| `IconPixmap.LightGrayCountMatchesGlyph` | src/trayicon.c:116-145 | The light-gray points of the whole icon equal the characters other than `.`, `+` and `@` in entries 5..28, when the screen's black, white and accent differ from `0xC0C0C0`. |
| `TrayProtocol.NatToDecimal` | src/trayicon.c:165 | The `%d` digits of a non-negative number are decimal digits, at least one, with no leading zero. |
| `TrayProtocol.DecimalRoundTrip` | src/trayicon.c:165 | Reading the digits back gives the number. |
| `TrayProtocol.FormatIntRoundTrip` | src/trayicon.c:165 | `%d` of any integer, negative ones included, parses back to that integer. |
| `TrayProtocol.DecimalLength` | src/trayicon.c:157-165 | A number below 10^k has at most k digits. |
| `TrayProtocol.FormatIntLength` | src/trayicon.c:157-165 | `%d` of any C `int` is 1 to 11 characters long. |
| `TrayProtocol.TraySelectionName` | src/trayicon.c:157-165 | The selection name is `_NET_SYSTEM_TRAY_S` followed by the screen number. For every C `int`, it is shorter than 64 characters, so it fits `traySelectionName[64]` with its NUL. |
| `TrayProtocol.SelectionNameIdentifiesScreen` | src/trayicon.c:165 | The screen number can be read back from the selection name, so different screens get different selections. |
| `TrayProtocol.DockRequestRoundTrip` | src/trayicon.c:211-222 | The dock message is addressed to `trayWindow` and carries `[CurrentTime, 0, iconWindow, 0, 0]`. A tray manager that reads `_NET_SYSTEM_TRAY_OPCODE` messages (client message, format 32, opcode 0) gets back a request to dock exactly `iconWindow`. |
| `TrayIcon.Tray.constructor` | src/trayicon.c:28-33 | The globals start at 0, with `iconVisible` false and no request sent. |
| `TrayIcon.Tray.Init` | src/trayicon.c:154-192 | Called once, on the initial globals. Records both atoms and the selection owner. The icon window is created, and its input selected, only when the owner is non-zero. The requests are: intern the formatted selection name, intern `_NET_SYSTEM_TRAY_OPCODE`, query the owner, then create and select. `iconVisible` is unchanged. |
| `TrayIcon.Tray.Show` | src/trayicon.c:197-235 | Does nothing when `trayWindow` or `iconWindow` is 0 or the icon is already visible. Otherwise it sends one dock request (no propagation, no event mask), then sets the rendered glyph as background, maps the window and flushes, in that order. It ends with `iconVisible` true, and no other global changes. It keeps the invariant that the icon window is the only mapped window, and is mapped exactly while `iconVisible` is set. |
| `TrayIcon.Tray.Hide` | src/trayicon.c:240-252 | Does nothing unless both windows exist and the icon is visible. Otherwise it unmaps once, flushes, and clears `iconVisible`; nothing else changes. |
| `TrayIcon.ReplayAppend` | src/trayicon.c:231-251 | Replaying a trace of map and unmap requests, window by window, can be split at any point. |
| `TrayIcon.InitKeepsMapped` | src/trayicon.c:166-191 | Initialisation neither maps nor unmaps any window. |
| `TrayIcon.StepKeepsMapped` | src/trayicon.c:231-251 | If the mapped windows were exactly the icon window while visible (none while hidden), that still holds after a show or a hide. Neither call ever maps a mapped window or unmaps an unmapped one. |
| `TrayIcon.RunCons` | src/trayicon.c:197-252 | A sequence of calls is its first call followed by the rest. |
| `TrayIcon.ShowGuard` | src/trayicon.c:203-206 | `showTrayIcon` changes no global and sends no request if and only if its guard fails. When it acts, it only sets `iconVisible`. |
| `TrayIcon.HideGuard` | src/trayicon.c:243-251 | `hideTrayIcon` changes nothing if and only if its guard fails. When it acts, it only clears `iconVisible`, and its requests are exactly an unmap and a flush. |
| `TrayIcon.ShowHideIdempotent` | src/trayicon.c:197-252 | Showing twice gives the same globals and the same requests as showing once, whatever replies (black, white, red) the second call would get. The same holds for hiding. |
| `TrayIcon.HideUndoesShow` | src/trayicon.c:231-251 | Hiding an icon that was just shown restores every global. |
| `TrayIcon.NoTrayRunIsInert` | src/trayicon.c:203-206 | With `trayWindow` 0, any sequence of show and hide calls changes nothing and sends nothing. |
| `TrayIcon.NoOwnerDisablesFeature` | src/trayicon.c:172-180 | When the selection has no owner, initialisation creates no window. Every later sequence of calls then changes nothing and sends nothing, and the icon stays hidden. |
| `TrayIcon.RunKeepsMapped` | src/trayicon.c:197-252 | For any sequence of calls, no window is mapped or unmapped twice in a row. The icon window is the only window ever mapped, and it is mapped exactly while `iconVisible` is set. |
| `TrayIcon.CountCons` | src/trayicon.c:231-248 | Counting maps and unmaps steps over one request. |
| `TrayIcon.CountAppend` | src/trayicon.c:231-248 | Map and unmap counts add up over consecutive traces. |
| `TrayIcon.ShowCounts` | src/trayicon.c:231 | A show that acts maps the icon window once and unmaps nothing. |
| `TrayIcon.HideCounts` | src/trayicon.c:248 | A hide that acts unmaps the icon window once and maps nothing. |
| `TrayIcon.HideShowHideHideShow` | src/trayicon.c:197-252 | Starting hidden with a tray, the sequence hide, show, hide, hide, show ends shown after exactly two maps and one unmap. Its requests are exactly those of one show, one hide and one show: the redundant calls send nothing. |
| `TrayIcon.InitShowHide` | src/trayicon.c:154-252 | With a tray manager present, `init` then `show` sends the dock request for the new window, sets its background and maps it before the flush. A following `hide` unmaps it and touches no pixmap. Together they restore the globals. |

## Left out

- The X server itself. Its replies are inputs, and the requests listed above are effects or plots; what the server does with them is not modelled. Whether it accepts a request is not modelled either; the source ignores it too.
- `XCreatePixmap`, `XCreateGC`, `XFreeGC` and `XFreePixmap` are not recorded in the trace.
- `TrayIcon.Tray.Init`: requires the initial globals, so calling `initTrayIcon` a second time is not modelled by the class. The code allows it: a second call while the icon is shown would replace `iconWindow` while the old window stays mapped, and `iconVisible` would stay set for the new window, which was never mapped. The model assumes one call per connection.
- `iconDisplay` and the `Display*` arguments: connection plumbing with no logic.
- The event mask passed to `XSelectInput` (`ExposureMask | StructureNotifyMask`), the root-window parent, and the border and background pixels of `XCreateSimpleWindow`. The trace records the window's position, size and border width only.
- The pixmap depth: resource plumbing. The pixmap is returned as a fresh `array2` and is not freed.
- The XPM colour lines (entries 1..4). The code never parses them, so the model does not either.
- Pixel values are unbounded `nat`s. The width of `unsigned long` is not modelled, and neither is the conversion of `iconWindow` to the `long` of `data.l[2]`.
- `IconPixmap.LightGrayCountMatchesGlyph`: requires the screen's black, white and accent pixels to differ from `0xC0C0C0`. Otherwise cells of other colours would be counted as gray too.
- `include/trayicon.h` only declares the three entry points. `config.h` and `miscutil.h` are not part of this model.
