# PDF to text OCR tool: a Dafny model

The program is a small desktop tool. The user picks a PDF file, the Tesseract
executable (`tesseract.exe`) and an output file. It then renders every page
of the PDF to an image, optionally pre-processes each page (greyscale, 3×
upscale, threshold at intensity 240), runs the OCR engine on each page in
order, and writes the page texts joined with no separator. The engine path
is remembered in an ini-style settings file (section → key → value).

This project models the two files that hold the program's own logic:

- `ocr.dfy`, module `Ocr` — the `PDF2Text` class of `ocr.py`: its fields
  `exePath`, `images` and `texts` (None until `open` sets them), `Open`,
  the recognition loop `ReadPages`, the pre-processing rule and `Save`.
  `OcrPages` is the recursive specification of the loop, `Concat` of
  `''.join`, and `Convert` of one `open` followed by `save`.
- `app.dfy`, module `App` — the `Program` class of `main.py`: the nested
  settings map and its in-place update with write-through to the settings
  file, the start-up engine path, the file-dialog result, the checks made
  before a run, and the status/button sequence of a run.
- `results.dfy`, module `Results` — `Option` and `Result`, standing for
  Python's `None` and for raised exceptions.

The foreign operations are the fields of `Ocr.Externals`, passed in as
parameters: PDF rasterisation (which may fail), greyscale conversion,
bicubic resampling, the OCR engine (which may fail, and which receives the
executable path that `ocr.py` assigns before each page), and the file write
(which may fail). The parsed settings file is a parameter of the
constructor. Each file written to the settings file is recorded in the ghost
log `dumps`. Each value the status text takes, and each state of the convert
button, is recorded in the ghost logs `statusLog` and `buttonLog`.

A failed run does not set a "failed" status: `convert_file` hands the
exception to the error dialog, so the status text stays at "Converting...".
The button is re-enabled in either case.

## Model

| member | source | states |
|---|---|---|
| `Ocr.Pdf2Text.constructor` | ocr.py:14-27 | a fresh object keeps the engine path and has `images` and `texts` both None |
| `Ocr.Pdf2Text.Open` | ocr.py:29-38 | if rasterising fails, the result is that document error and both fields are unchanged; otherwise `images` holds the pages, and `texts` holds the recognised texts on success or keeps its old value after an OCR failure, which is then returned |
| `Ocr.Pdf2Text.ReadPages` | ocr.py:40-55 | the loop returns exactly `OcrPages` of its pages: texts appended in page order, stopping with the first engine failure |
| `Ocr.ReadPage` | ocr.py:50-53 | reading one page can fail only with an OCR failure; without pre-processing it succeeds exactly when the engine reads the page itself |
| `Ocr.OcrPages` | ocr.py:40-55 | the recognition of all pages, as a value: on success there is one text per page, and a failure is always an OCR failure |
| `Ocr.OcrPagesSucceeds` | ocr.py:48-55 | recognition of all pages succeeds if and only if every single page is recognised |
| `Ocr.OcrPagesPageByPage` | ocr.py:49-54 | on success there are as many texts as pages, and text i is the engine's reading of page i, pre-processed when `prep` is set |
| `Ocr.OcrPagesFirstFailure` | ocr.py:49-55 | when pages before j are read and page j fails, the whole recognition fails with page j's error |
| `Ocr.Threshold` | ocr.py:66 | a pixel becomes 255 exactly when its value is above 240, and 0 exactly when it is not |
| `Ocr.ThresholdIdempotent` | ocr.py:66 | applying the threshold rule to its own output changes nothing |
| `Ocr.Binarize` | ocr.py:66 | the image keeps its size and pixel count (so a well-formed raster stays well-formed), each pixel is the threshold of the old one, and every pixel is 0 or 255 |
| `Ocr.BinarizeFixesBinary` | ocr.py:66 | an image that is already black and white is left as it is |
| `Ocr.BinarizeIdempotent` | ocr.py:66 | thresholding twice is the same as thresholding once |
| `Ocr.PreProcess` | ocr.py:57-66 | a pre-processed page is black and white |
| `Ocr.PreProcessShape` | ocr.py:64-66 | with a resampler that produces a well-formed raster of the size it is asked for, a pre-processed page is a well-formed raster of 3·width by 3·height of the original page, nine times as many pixels, and thresholding it again changes nothing |
| `Ocr.Concat` | ocr.py:75 | the joined text is as long as the page texts together |
| `Ocr.ConcatAppend` | ocr.py:75 | joining the pages of `a + b` gives the join of `a` followed by the join of `b` |
| `Ocr.ConcatPlacesPage` | ocr.py:75 | page i's text sits in the output right after the texts of the pages before it, with no separator |
| `Ocr.ConcatTwoPages` | ocr.py:75 | joining ["A", "B"] gives "AB" |
| `Ocr.Pdf2Text.Save` | ocr.py:68-77 | before `open` has set `texts`, saving fails; otherwise the output is the page texts joined without separator, written to the path |
| `Ocr.Convert` | ocr.py:37-38 | a fresh object's open then save never fails on the None join; it ends with a document error exactly when rasterising fails; a success means every page was recognised and the writer accepted the text |
| `Ocr.EndToEnd` | main.py:247-252 | when the PDF rasterises, every page is recognised and the write succeeds, the run writes the page texts joined in page order |
| `App.TailAfterSep` | main.py:220 | the result is the longest suffix of the path that contains no `/` or `\` |
| `App.Basename` | main.py:220 | the file name is a separator-free suffix of the path that stops at the last separator or at a drive prefix `X:` |
| `App.Validate` | main.py:219-237 | a run starts exactly when the file name of the engine path is `tesseract.exe` and the source and output paths are non-empty; a wrong engine name is reported first, whatever the other paths are; a missing path is reported exactly when the name is right and a path is empty |
| `App.ExeTestRedundant` | main.py:220-226 | once the file-name check passes the engine path is non-empty, so the decision does not depend on the second test of the engine path |
| `App.Updated` | main.py:96-101 | after the update the key holds the value; a missing section is created holding exactly that one pair; an existing section keeps its other keys and values; all other sections are unchanged |
| `App.UpdateIdempotent` | main.py:97-101 | two identical updates leave the same map as one |
| `App.InitialExePath` | main.py:166-169 | the start-up engine path is `settings['PATHS']['exe_path']` when section and key exist, and the empty string otherwise |
| `App.StoredExePathIsRestored` | main.py:166-178 | the start-up rule applied to the map the change callback updated gives back the stored engine path |
| `App.LoadSections` | main.py:81-85 | the loaded map has exactly the sections of the parsed configuration, each holding exactly that section's pairs |
| `App.Program.ReadSettings` | main.py:71-86 | the settings become those of the parsed configuration; nothing else changes |
| `App.Program.UpdateSettings` | main.py:88-103 | the settings become `Updated` of the old ones, and that map is written to the settings file; nothing else changes |
| `App.Program.SetupVariables` | main.py:163-182 | the engine path becomes `InitialExePath` of the settings; source, output, check box and status start empty |
| `App.Program.SelectFile` | main.py:214-215 | an empty dialog answer changes nothing; otherwise the chosen path is stored, and for the engine path the change callback also stores it under PATHS/exe_path and writes the settings file |
| `App.RunFailure` | main.py:241-254 | the handler receives nothing exactly when the run succeeds, and never the None-join error |
| `App.RunPipeline` | main.py:247-250 | a fresh `PDF2Text` for the engine path, opened on the source and saved to the output, gives exactly the outcome `Convert` specifies |
| `App.Program.ConvertFile` | main.py:239-257 | the button is disabled, then enabled again on every path out; the status shows "Converting..." and then "Done!" only when open and save both returned; the failure reported is the first one raised by the run |
| `App.Program.StartConversion` | main.py:217-237 | the decision is `Validate` of the three paths; a rejected run changes nothing; an accepted run behaves as `ConvertFile` |
| `App.Program.constructor` | main.py:17-30 | start-up reads the settings, takes the engine path from them, and shows an enabled button and an empty status |

## Left out

- Tkinter widgets, window layout, `create_section`, the file dialogs themselves and `mainloop`. `SelectFile` receives the dialog's answer as a parameter.
- The warning and error message boxes and `display_error`'s traceback formatting. The rejection reason is returned as a `Decision` and the run's failure as an `Ocr.Error`.
- The worker thread of `start_conversion`: `ConvertFile` is called directly, one run at a time.
- configparser's file reading and writing. The parsed file is a map given to the constructor; `dump_settings` is recorded without its formatting, and a failing settings write is not modelled.
- configparser's DEFAULT-section behaviour, where `config[section].items()` also lists the DEFAULT keys. The model copies each section's own pairs only.
- `App.Basename`: models Windows `os.path.basename` with `/` and `\` separators and a drive letter prefix. UNC share prefixes (`\\server\share`) and the POSIX variant (only `/` separates) are not modelled.
- pdf2image rasterisation and its specific exception classes. It is a field of `Externals` that gives pages or a message.
- pytesseract's engine call and the global `tesseract_cmd` assignment. The engine is a function of the executable path and the image that gives text or a message.
- Pillow's greyscale conversion and bicubic resampling, which use floating point. They are fields of `Externals`; only the target size and the integer threshold rule are modelled.
- `App.StoredExePathIsRestored`: the round trip through the settings file is assumed, not modelled. `dump_settings` writes to the path itself while `read_settings` reads `'./' + path`; configparser refuses values with a lone `%` and strips values when reading.
- `Ocr.Image`: a raster is well-formed when it holds width × height pixels (`Ocr.WellFormed`); rasterised pages are not required to be.
- `Ocr.PreProcessShape`: proves the 3× output size only for resamplers that honour their target size, because Pillow's resampling is outside the model.
- Exceptions other than the modelled failures, for example from widget calls inside `convert_file`.
