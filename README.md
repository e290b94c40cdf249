# Door/window detection: boxes and their coordinate file

This project models the detection-box record of the door/window mapper, and the
plain-text coordinate file through which its two halves talk to each other.

- **Desktop detection tool** (`detect.py`, module `Detect`):
  - sweeps a trained detector over the confidence thresholds 0.3, 0.5 and 0.7;
  - names each box `door` or `window` and collects them into `detected_boxes`;
  - replaces those boxes when an image is loaded;
  - on save, writes an annotated copy of the image and a coordinate file with one line `x1:A y1:B x2:C y2:D name` per box.
- **Browser page** (`script.js`, module `Coordinates`): reads that file back into boxes, line by line. It uses the pattern `x1:(\d+)\s*y1:(\d+)\s*x2:(\d+)\s*y2:(\d+)\s*(\w+)?`.
- **Browser editor** (module `Canvas`): hit-tests clicks against the boxes, and keeps the placed images and the drag state in class `Editor`.
- **Shared text vocabulary** (module `Text`): numerals, `trim` and `split('\n')`.
- **Both sides together** (module `RoundTrip`): proves what the page reads back from the file the tool wrote.

The detector itself is a table from an image path and a threshold to the boxes
it reports, with the calls that raise (`Detect.Predictor`). Python's `int` of a float, `str` of an int,
and JavaScript's `Number`, `trim` and `split` are written out.

The main results are these:

- **Sweep** (`Detect.SweepOfThresholds`, `Detect.SweepLength`): the tool's boxes are the three calls' boxes, concatenated in threshold order. Nothing is merged.
- **Threshold order** (`Detect.SweepThresholds`): the thresholds handed to the detector are the list itself, even though the inner loop rebinds `conf`.
- **Failing detector** (`Detect.DetectionApp.LoadHouseImage`): when a `predict` call raises, loading has already replaced the image, so the window keeps the new image with the old boxes and the old status.
- **Round trip** (`RoundTrip.SavedFileReadBack`): the page reads the saved file back as the boxes of the records with no negative coordinate, in record order. Each box keeps its coordinates and its class name, and has no image. `RoundTrip.ParseBodyOffCanvas` shows that a record with a negative coordinate is skipped, because `\d+` does not accept the minus sign.
- **Placement** (`Canvas.GetBoxAtPoint`, `Canvas.PlacementKeyShared`):
  - a click hits the first box in list order that contains it;
  - two boxes share a placement slot exactly when they share their top-left corner.

The tool names a box `door` when its class id is 0 and `window` for every
other id (`detect.py:97`); `Detect.ClassName` does the same.

## Model

| member | source | states |
|---|---|---|
| Detect.Truncate | Project/web_based_project/detect.py:99 | `int` of a float rounds toward zero: at most the float when it is non-negative, at least it when it is negative, within 1 |
| Detect.TruncateNonNegative | Project/web_based_project/detect.py:99 | a stored coordinate is non-negative exactly when the reported float is above -1 |
| Detect.ClassName | Project/web_based_project/detect.py:97 | the name is `door` exactly when the class id is 0, and `window` for every other id |
| Detect.ToDetection | Project/web_based_project/detect.py:94-101 | the record of one reported box; `Detect.ConvertedAt` states its truncated corners, the confidence and class id kept, and the derived name |
| Detect.Converted | Project/web_based_project/detect.py:93-101 | one record per box a call returned |
| Detect.ConvertedAt | Project/web_based_project/detect.py:94-101 | the k-th record of a call comes from its k-th box: truncated corners, the detector's confidence and class id unchanged, the derived name |
| Detect.ConvertedSnoc | Project/web_based_project/detect.py:98 | one more box appends exactly its record |
| Detect.Sweep | Project/web_based_project/detect.py:88-102 | the records the threshold loop collects; `Detect.SweepSnoc`, `Detect.SweepLength` and `Detect.SweepOfThresholds` state that it concatenates the calls' records in threshold order, with none dropped or merged |
| Detect.SweepSnoc | Project/web_based_project/detect.py:90-101 | one more threshold appends exactly that call's records |
| Detect.SweepLength | Project/web_based_project/detect.py:88-102 | the sweep holds as many records as the calls returned boxes altogether: no de-duplication |
| Detect.SweepOfThresholds | Project/web_based_project/detect.py:88-102 | the result is the records of the calls at 0.3, 0.5 and 0.7, concatenated in that order |
| Detect.SweepNamed | Project/web_based_project/detect.py:96-100 | every collected record carries the name its class id determines |
| Detect.AppendBoxes | Project/web_based_project/detect.py:93-101 | the inner loop appends the call's records after those already collected; `conf` ends as the last box's confidence |
| Detect.SweepThresholds | Project/web_based_project/detect.py:88-102 | the nested loops compute the sweep when no call raises, and the thresholds handed to `predict` are exactly the list, in order; a raising call ends the sweep with no result exactly when some threshold raises, and the calls made are the list up to that first raising threshold |
| Detect.DetectionApp.DetectObjects | Project/web_based_project/detect.py:87-102 | `detect_objects` returns the sweep over 0.3, 0.5, 0.7, calling the detector with exactly those thresholds, and fails exactly when one of those calls raises |
| Detect.DetectionApp.constructor | Project/web_based_project/detect.py:14-15 | a new window has no image and no boxes |
| Detect.DetectionApp.LoadHouseImage | Project/web_based_project/detect.py:79-85 | an empty path changes nothing; otherwise the new image replaces the old one, then a fresh sweep replaces the whole box list and the status names the file; when a `predict` call raises, the new image stays with the old boxes and the old status |
| Detect.BasenameIsLastComponent | Project/web_based_project/detect.py:85 | the name shown is the tail of the path after its last `/`, and holds no `/` |
| Detect.Basename | Project/web_based_project/detect.py:85 | the file name shown after loading; `Detect.BasenameIsLastComponent` states it is the tail of the path after its last `/` |
| Detect.Message | Project/web_based_project/detect.py:170-172 | the status text for each outcome, including the initial and the loaded messages of lines 76 and 85; `Detect.DetectionApp.SaveResults` states which one each save shows |
| Detect.CoordinateBody | Project/web_based_project/detect.py:168 | the line written for one record, without its newline; `Detect.Bodies`, `Detect.BodyHasNoNewline` and `RoundTrip.ParseWriterLine` state its shape and what the page reads from it |
| Detect.CoordinateLine | Project/web_based_project/detect.py:168 | the line written for one record, newline included; `Detect.CoordinateTextCons` states that the file is these lines in order |
| Detect.CoordinateText | Project/web_based_project/detect.py:165-168 | the whole coordinate file; `Detect.CoordinateLines` states it splits into one line per record, and `RoundTrip.SavedFileReadBack` states what the page reads back from it |
| Detect.Bodies | Project/web_based_project/detect.py:166-168 | the k-th line body is the k-th record's `x1:A y1:B x2:C y2:D name` |
| Detect.CoordinateTextCons | Project/web_based_project/detect.py:165-168 | the file is the first record's line followed by the file of the others |
| Detect.BodyHasNoNewline | Project/web_based_project/detect.py:168 | a line body holds no newline when the class name is a word |
| Detect.CoordinateLines | Project/web_based_project/detect.py:165-168 | split at newlines, the file is exactly one piece per record in record order, then the empty piece after the final newline |
| Detect.WriteCoordinates | Project/web_based_project/detect.py:165-168 | the write loop produces the file of the records, in order |
| Detect.SaveColour | Project/web_based_project/detect.py:153 | (255,0,0) exactly for `door`, (0,255,0) for every other name |
| Detect.MarkFor | Project/web_based_project/detect.py:151-159 | the mark drawn for one record; `Detect.DrawMarks` states its rectangle, colour and label position, one per record |
| Detect.DrawMarks | Project/web_based_project/detect.py:150-159 | one mark per record in order: its rectangle, its colour, and its label 5 pixels above the top-left corner |
| Detect.DetectionApp.SaveResults | Project/web_based_project/detect.py:136-172 | without an image or without boxes nothing is written and the status says so; otherwise both outputs are overwritten: the image copy with one mark per record, and the coordinate file of the records |
| Text.NatToString | Project/web_based_project/detect.py:168 | `str` of a non-negative int is a non-empty run of digits, longer than one digit exactly from 10 on |
| Text.IntToString | Project/web_based_project/detect.py:168 | `str` of an int; `Text.IntToStringShape` states a leading `-` exactly for negatives and digits otherwise |
| Text.DigitsValue | Project/web_based_project/project-folder/script.js:83-86 | `Number` of a digit run; `Text.DigitsValueOfNatToString` states it inverts `str` on non-negative ints |
| Text.DigitsValueOfNatToString | Project/web_based_project/project-folder/script.js:83-86 | `Number` of the numeral `str` wrote gives back the number |
| Text.IntToStringShape | Project/web_based_project/detect.py:168 | `str` of an int starts with `-` exactly when the int is negative, and is digits otherwise |
| Text.IntToStringNoNewline | Project/web_based_project/detect.py:168 | a written coordinate holds no newline |
| Text.TrimStart | Project/web_based_project/project-folder/script.js:77 | `trim` removes a prefix made only of white space and stops at a visible character |
| Text.TrimEnd | Project/web_based_project/project-folder/script.js:77 | `trim` removes a suffix made only of white space and stops at a visible character |
| Text.Trim | Project/web_based_project/project-folder/script.js:77 | `trim`; `Text.TrimStart`, `Text.TrimEnd`, `Text.TrimAllSpaces` and `Text.TrimLine` state what it removes and keeps |
| Text.TrimAllSpaces | Project/web_based_project/project-folder/script.js:77 | white-space-only text trims to the empty string |
| Text.TrimLine | Project/web_based_project/project-folder/script.js:77 | a line that starts and ends with word characters, plus a final newline, trims to the line |
| Text.WordCharNotSpace | Project/web_based_project/project-folder/script.js:79 | `\w` and `\s` share no character |
| Text.FirstNewline | Project/web_based_project/project-folder/script.js:77 | the first newline, or the end when there is none |
| Text.Split | Project/web_based_project/project-folder/script.js:77 | `split('\n')` gives at least one piece and no piece holds a newline |
| Text.SplitLine | Project/web_based_project/project-folder/script.js:77 | a newline-free piece followed by a newline splits off as the first piece |
| Text.SplitJoin | Project/web_based_project/project-folder/script.js:77 | splitting newline-free pieces joined by newlines gives the pieces back |
| Text.JoinSplit | Project/web_based_project/project-folder/script.js:77 | joining the pieces of a split gives the text back |
| Text.SplitNewlineEnd | Project/web_based_project/project-folder/script.js:77 | a final newline adds one empty last piece |
| Coordinates.SpanDigits | Project/web_based_project/project-folder/script.js:79 | greedy `\d+`: the longest prefix of digits |
| Coordinates.SpanDigitsOf | Project/web_based_project/project-folder/script.js:79 | a digit run followed by a non-digit is taken whole |
| Coordinates.SpanSpaces | Project/web_based_project/project-folder/script.js:79 | greedy `\s*`: the longest prefix of white space |
| Coordinates.SpanWord | Project/web_based_project/project-folder/script.js:79 | greedy `(\w+)?`: the longest prefix of word characters |
| Coordinates.Field | Project/web_based_project/project-folder/script.js:79 | a matched `tag(\d+)\s*` stretch captures a non-empty digit run |
| Coordinates.MatchPrefixWellFormed | Project/web_based_project/project-folder/script.js:79 | a match captures four digit runs and, if any, a word |
| Coordinates.MatchPrefix | Project/web_based_project/project-folder/script.js:79 | the pattern anchored at one position; `Coordinates.MatchPrefixWellFormed` states its captures are four digit runs and an optional word |
| Coordinates.FirstMatchFrom | Project/web_based_project/project-folder/script.js:79 | the search reports a position within the line |
| Coordinates.FirstMatchFromIsLeftmost | Project/web_based_project/project-folder/script.js:79 | `match` finds the leftmost position where the pattern matches, or reports no match when it matches nowhere |
| Coordinates.LineMatch | Project/web_based_project/project-folder/script.js:79 | `line.match(pattern)`: the captures at the leftmost matching position; `Coordinates.LineMatchNone` states when there is none |
| Coordinates.LineMatchNone | Project/web_based_project/project-folder/script.js:79-80 | a line gives no match exactly when the pattern matches at no position of it |
| Coordinates.LineMatchWellFormed | Project/web_based_project/project-folder/script.js:79-81 | the captures of a line's match are four digit runs and an optional word |
| Coordinates.ToBox | Project/web_based_project/project-folder/script.js:81-89 | the box a match becomes; `RoundTrip.BoxOfNumerals` states it holds the numbers written, the word or `unknown`, and no image |
| Coordinates.ParseLine | Project/web_based_project/project-folder/script.js:79-90 | the box a line contributes, if any; `Coordinates.ParseLineNoImage`, `Coordinates.EmptyLine` and `RoundTrip.ParseWriterLine` state what it gives |
| Coordinates.ParsedBoxes | Project/web_based_project/project-folder/script.js:77-91 | the boxes the page reads from the file text; `Coordinates.LoadCoordinates` computes them with the page's loop, and `RoundTrip.SavedFileReadBack` states what they are for a saved file |
| Coordinates.ParseLinesSnoc | Project/web_based_project/project-folder/script.js:78-91 | one more line adds its box, if it matches |
| Coordinates.LoadCoordinates | Project/web_based_project/project-folder/script.js:74-93 | the loop over the trimmed, split text pushes exactly the boxes of the matching lines, in line order |
| Coordinates.ParseLinesAppend | Project/web_based_project/project-folder/script.js:78-91 | lines read one run after another give their boxes one run after another |
| Coordinates.ParseLinesCount | Project/web_based_project/project-folder/script.js:78-91 | never more boxes than lines, and none when no line matches |
| Coordinates.ParseLinesEach | Project/web_based_project/project-folder/script.js:78-91 | when every line matches, the k-th box comes from the k-th line |
| Coordinates.ParseLinesFrom | Project/web_based_project/project-folder/script.js:80-89 | every box comes from some line of the text and has no image |
| Coordinates.ParseLineNoImage | Project/web_based_project/project-folder/script.js:88 | a freshly read box has no image |
| Coordinates.EmptyLine | Project/web_based_project/project-folder/script.js:79-80 | the empty line gives no box |
| Coordinates.BlankText | Project/web_based_project/project-folder/script.js:77-91 | empty or white-space-only text gives no boxes |
| RoundTrip.SpanSpacesOf | Project/web_based_project/project-folder/script.js:79 | white space followed by a visible character is taken whole |
| RoundTrip.SpanWordOf | Project/web_based_project/project-folder/script.js:79 | word characters followed by a non-word character are taken whole |
| RoundTrip.WholeWord | Project/web_based_project/project-folder/script.js:79 | a class name at the end of a line is captured whole |
| RoundTrip.FieldOf | Project/web_based_project/project-folder/script.js:79 | a tag, digits and white space before a visible non-digit form one stretch, capturing the digits |
| RoundTrip.MidField | Project/web_based_project/project-folder/script.js:79 | a written coordinate followed by ` ` and the next tag is captured, and the match goes on at that tag |
| RoundTrip.LastField | Project/web_based_project/project-folder/script.js:79 | the `y2` stretch captures its numeral and leaves the class name, or nothing |
| RoundTrip.MatchWriterLine | Project/web_based_project/project-folder/script.js:79 | the pattern captures the four numerals and the class name of a written line, and no word when the name is absent |
| RoundTrip.MatchAtStart | Project/web_based_project/project-folder/script.js:79-89 | a line the pattern matches at its start yields that match's box |
| RoundTrip.BoxOfNumerals | Project/web_based_project/project-folder/script.js:82-89 | the box of captured numerals holds the numbers written, the word or `unknown`, and no image |
| RoundTrip.ParseOfNumerals | Project/web_based_project/project-folder/script.js:79-89 | a line matched at its start by numerals is read as the box of those numbers |
| RoundTrip.ParseWriterLine | Project/web_based_project/project-folder/script.js:79-89 | a line of the written shape is read back with the same numbers and name, and `unknown` when the name is missing |
| RoundTrip.NegativeField | Project/web_based_project/project-folder/script.js:79 | `\d+` fails on a coordinate written with a minus sign |
| RoundTrip.NegativeAtStart | Project/web_based_project/project-folder/script.js:79 | a written line with any negative coordinate does not match at its start |
| RoundTrip.ColonsTaggedAppend | Project/web_based_project/detect.py:168 | text holding no `x1:` tag, put together, still holds none |
| RoundTrip.NumeralColonsTagged | Project/web_based_project/detect.py:168 | a written coordinate holds no colon |
| RoundTrip.WordColonsTagged | Project/web_based_project/detect.py:168 | a class name holds no colon |
| RoundTrip.BodyRest | Project/web_based_project/detect.py:168 | after its leading `x1:`, a written line holds no further `x1:` |
| RoundTrip.NoLaterMatch | Project/web_based_project/project-folder/script.js:79 | past its first character, a written line matches nowhere |
| RoundTrip.OnCanvasOfRaw | Project/web_based_project/detect.py:94-99 | a record has no negative coordinate exactly when every reported corner is above -1 |
| RoundTrip.ParseBodyOnCanvas | Project/web_based_project/project-folder/script.js:79-89 | the line of a record with no negative coordinate is read back as that record's corners and name, without image |
| RoundTrip.ParseBodyOffCanvas | Project/web_based_project/project-folder/script.js:79-80 | the line of a record with a negative coordinate matches nowhere and is skipped |
| RoundTrip.ParseLinesSingle | Project/web_based_project/project-folder/script.js:78-91 | a single line gives its box, if it matches |
| RoundTrip.ParseBodies | Project/web_based_project/project-folder/script.js:78-91 | the lines of the records are read as the boxes of the records with no negative coordinate, in order |
| RoundTrip.BodyEnds | Project/web_based_project/detect.py:168 | a written line starts with `x` and ends with the last character of its class name |
| RoundTrip.TextShape | Project/web_based_project/detect.py:165-168 | a non-empty file is its visible text followed by one newline |
| RoundTrip.TrimmedText | Project/web_based_project/project-folder/script.js:77 | trimming a non-empty file removes just its final newline |
| RoundTrip.SavedFileReadBack | Project/web_based_project/project-folder/script.js:77-91 | the page reads the file the tool wrote as the boxes of the records with no negative coordinate, in record order, with their corners and names and no image |
| RoundTrip.ExpectedOnCanvas | Project/web_based_project/detect.py:165-168 | when no coordinate is negative, the read-back boxes match the records one to one, in order |
| RoundTrip.NamedAreWords | Project/web_based_project/detect.py:97 | the names the tool gives are words |
| RoundTrip.SessionReadBack | Project/web_based_project/detect.py:136-168 | the saved file of the window's boxes is read back as the boxes of its records with no negative coordinate |
| RoundTrip.SweepReadBack | Project/web_based_project/detect.py:87-102 | the same holds for the boxes of any sweep over 0.3, 0.5 and 0.7 |
| Canvas.IsPointInBox | Project/web_based_project/project-folder/script.js:137-139 | a point inside a box lies between x1 and x2 and between y1 and y2, edges included, so only a box whose corners are in order contains any point |
| Canvas.EdgesInclusive | Project/web_based_project/project-folder/script.js:137-139 | the four corners of a box are inside it, and a point beyond any edge is not |
| Canvas.GetBoxAtPoint | Project/web_based_project/project-folder/script.js:142-144 | the result is a box containing the point with no earlier box containing it, and there is no result exactly when no box contains the point |
| Canvas.HitIgnoresImageFlag | Project/web_based_project/project-folder/script.js:201-219 | marking a box as holding an image does not change which box a point hits |
| Canvas.DrawColour | Project/web_based_project/project-folder/script.js:131 | `blue` exactly for type `door`, `green` for every other type |
| Canvas.PlacementKey | Project/web_based_project/project-folder/script.js:214 | the key `x1_y1` of a box has one underscore, right after the numeral of x1; `Canvas.PlacementKeyShared` states that it identifies the top-left corner |
| Canvas.PlacementKeyShared | Project/web_based_project/project-folder/script.js:214 | two boxes share an entry of `placedImages` exactly when they share their top-left corner |
| Canvas.KeyParts | Project/web_based_project/project-folder/script.js:214 | a key `x1_y1` determines both of its numerals |
| Canvas.PlaceKeepsMarked | Project/web_based_project/project-folder/script.js:214-219 | after a placement, every entry still sits under its box's key and its box is marked |
| Canvas.Editor.constructor | Project/web_based_project/project-folder/script.js:269-282 | the page starts with the boxes read from the file (none when the fetch failed), no image, no placements, no drag, and the ready message |
| Canvas.Editor.ImageLoaded | Project/web_based_project/project-folder/script.js:56-61 | a loaded image becomes the image to place and the status says so; nothing else changes |
| Canvas.Editor.MouseDown | Project/web_based_project/project-folder/script.js:194-225 | with no image, or off every box, nothing changes; otherwise the first box hit is marked, its key's entry is replaced by the image in that box, the drag starts with the preview shown, the status names the box's type, and no other box changes |
| Canvas.Editor.MouseUp | Project/web_based_project/project-folder/script.js:255-266 | a drag in progress ends and the preview is hidden, with placements and boxes kept; without a drag nothing changes |

## Left out

- Detect.Predictor: YOLO inference is a table from an image path and a threshold to the reported boxes, plus the set of pairs whose call raises. A pair not listed reports no boxes. Tensor conversion and the kind of exception are not modelled; a raising call leaves the window with the state `Detect.DetectionApp.LoadHouseImage` states, and the exception, which reaches the GUI event loop, is not modelled beyond that.
- Detect.DetectionApp.LoadHouseImage: the file dialog and `cv2.imread` are parameters: the chosen path, and the decoded image or nothing. Displaying the image is not modelled.
- Detect.WriteCoordinates: the file is modelled with `\n` line endings, as a POSIX host writes it. On Windows, which the tool's hard-coded weight path points to, text mode writes `\r\n`; the `\r` is white space and not a word character, so `trim` and `(\w+)?` leave it out of every capture; the round trip is proved for `\n` endings only.
- Detect.DetectionApp.SaveResults: the output paths are joined with `/`, as `os.path.join` does on a POSIX host; on Windows it joins with `\`, which the status message would show.
- Detect.BasenameIsLastComponent: `os.path.basename` is modelled on POSIX paths only; the Windows separator `\` is not modelled.
- Display scaling and zoom (`display_image`, `on_mousewheel`, detect.py:104-134): float arithmetic and Tkinter drawing.
- Detect.DrawMarks: confidences in labels are kept as numbers; the `:.2f` formatting, the font and the line width are not modelled.
- Detect.DetectionApp.SaveResults: `os.makedirs`, `cv2.imwrite` and the file write are the two output fields; a failing write is not modelled.
- The weight-file assertion and the Tkinter layout of the constructor (detect.py:18-23): I/O and GUI set-up.
- Project/training_model.py: one call into the external trainer; it has no logic of its own.
- Canvas.Editor.constructor: the `fetch` of the coordinate file is a parameter. Its failure is modelled as no text, which gives no boxes. The error message it writes is overwritten by the ready message, and the model shows only the final status. Background drawing is not modelled.
- Drawing on the page is not modelled: `drawBox`, `drawBackground`, `drawPlacedImages`, the opacity slider, the `mousemove` highlight, and the order of the asynchronous redraws.
- Drag-and-drop and `FileReader` plumbing: an image arrives through `Canvas.Editor.ImageLoaded`. Only its `src` is kept.
- Coordinates.Box: `Number` of a digit run is exact here. JavaScript loses precision above 2^53, and the model does not.
- Coordinates.MatchPrefix: the regular expression is modelled for this one pattern, with greedy repetition and no backtracking. For this pattern that loses no match: every `\d+` is followed by white space or a letter, and every `\s*` by a letter or the optional word.
- Canvas.Placement: the page stores the box object in `placedImages`. The model stores the box's index in `boxes`, so setting `hasImage` is seen through the entry as in the page.
