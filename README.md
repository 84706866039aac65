# vibrant colour parsing, modelled in Dafny

`include/vibrant.h` is a single-header C library. It turns a short CSS colour
text into sRGB channels and hands them to a *receiver*, an object that
stores the channels by value or writes them through caller-supplied pointers.
It accepts three kinds of text:

- hex notations: `#rgb`, `#rgba`, `#rrggbb` and `#rrggbbaa`;
- the functional notations `rgb()`, `hsl()`, `hwb()`, `lch()`, `lab()`,
  `oklch()` and `oklab()`, each also spelt with an `a` after the name;
- the CSS colour names, such as `red`.

The library also exposes its conversion entry points `vbt_rgb`, `vbt_hsl`,
`vbt_hwb`, `vbt_lab`, `vbt_lch`, `vbt_oklab` and `vbt_oklch` directly.

This project models the parsing core and the 8-bit receiver paths:

- `dispatch.dfy`: `vbt_parse`, which checks its arguments and routes the
  text, `vbt_parse_z` and `vbt__strlen_safe`.
- `hex.dfy`: `vbt__hex_char_to_int` and `vbt__parse_hex`. The
  four-component array is filled in a loop, as in C.
- `scanner.dfy`: the parser cursor `vbt__parser_t`, modelled as the class
  `Cursor`. It provides `consume_whitespace`, `consume_if`, `parse_number`,
  `consume_css_value` and `consume_delimiter`. Each is proved equal to a
  function of the text (`SkipBlanks`, `HasAt`, `ScanNumber`, `ScanValue`,
  `Delimit`).
- `functions.dfy`: `vbt__parse_css_function`. The grammar is the function
  `FunctionSyntax`. The method `ParseFunctionSyntax` walks a `Cursor`, fills
  a four-element argument array and is proved to compute `FunctionSyntax`.
  `ParseCssFunction` then translates the arguments and delivers the colour.
- `units.dfy`: the unit translators `vbt__css_value_to_*`.
- `conversion.dfy`: `vbt_rgb`, `vbt_hsl` and `vbt_hwb` in full, with
  `vbt__hsl_to_rgb(_fn)` and `vbt__normalize_angle`. For `vbt_lab`,
  `vbt_lch`, `vbt_oklab` and `vbt_oklch`, only the finiteness guards and the
  final clamps are modelled.
- `names.dfy`: `vbt__tolower` (in `text.dfy`), `vbt__casecmp`,
  `vbt__find_css_color` and `vbt__parse_css_color_name`.
- `receiver.dfy`: the `VBT_RECV_VAL_U8` and `VBT_RECV_REF_U8` paths of
  `vbt__write_u8` and `vbt__write_01`.
- `color.dfy`: shared types, `VBT__CLAMP*` and `VBT__01_TO_255`.

How C maps onto Dafny:

- A `const char*` with its length becomes a `string`. A possibly-null
  pointer becomes `Option<string>`, where `Some(buf)` is the memory from the
  pointer on.
- `vbt_number_t` becomes an exact `real`. At the public entry points it is
  `Num`, which adds NaN and the two infinities so that the `isfinite` guards
  can be stated.
- The receiver is a class. Its by-reference targets are `ByteCell` objects,
  any of which may be null.
- Every entry point that can fail is proved to leave the receiver and its
  cells unchanged on failure. On success it is proved to keep the
  receiver's tag and pointers (`KeptLayout`): only the stored bytes or the
  pointed-to cells change.

Behaviour of the code worth noting:

- A lone `+`, `-` or `.` scans as the number 0, one character long
  (`Scanner.LoneSignOrPoint`); it is not a no-match. The scanner returns
  failure only when it consumed nothing at all.
- A `%` written after a hue is accepted by the grammar and ignored: the hue
  is taken as its raw number.
- Function names are case-sensitive (`Functions.UpperCaseIsNotACall`).
  Colour names and hex digits are not case-sensitive.
- Only a space and a tab count as whitespace.
- In `vbt__parse_number`, the fraction overflow guard
  (`res > NUMBER_MAX - val`) can never fire in exact arithmetic. The model
  proves this as an assertion at that point.
- The final check that no argument is left `UNSET` is an assertion in
  `ParseFunctionSyntax`, proved always to hold.

## Model

| member | source | states |
|---|---|---|
| Color.Clamp | include/vibrant.h:473-476 | The result lies in [lo, hi]. It is lo below the range, hi above it, and the value itself inside. |
| Color.Byte01 | include/vibrant.h:479-482 | For x in [0, 1], the byte is the nearest to x*255, with halves rounded up. 0 gives 0 and 1 gives 255. |
| Color.HalfAlphaIs128 | test/test-color.c:19-23 | Alpha 0.5 becomes the byte 128. |
| Receivers.Receiver.ByValue | include/vibrant.h:385-387 | A by-value 8-bit receiver starts at zero and has no pointers. |
| Receivers.Receiver.ByReference | include/vibrant.h:391-396 | A by-reference receiver keeps the four pointers it was given. |
| Receivers.Receiver.WriteU8 | include/vibrant.h:742-801 | Always succeeds and shows the four bytes. By value it stores them and touches no cell. By reference it writes each non-null pointer, in the order r, g, b, a, and leaves the receiver itself unchanged. |
| Receivers.Receiver.Write01 | include/vibrant.h:803-862 | Quantises each unit-interval channel with 01_TO_255 and shows the bytes, with the same frame as WriteU8. |
| Receivers.WriteByValueStoresChannels | include/vibrant.h:748-753 | A by-value write stores exactly the four channels given. |
| Receivers.WriteByReference | include/vibrant.h:766-775 | With distinct cells, each cell receives its channel. With every pointer null, the write still succeeds. |
| Conversion.Fmod | include/vibrant.h:907-911 | C's fmod with a positive divisor: the remainder has the dividend's sign and a magnitude below the divisor. |
| Conversion.FmodBounds | include/vibrant.h:907-911 | The truncated quotient leaves a remainder with the sign of x and a magnitude below y. |
| Conversion.NormalizeAngle | include/vibrant.h:907-911 | The result is in [0, 360) and is a whole number of turns from the input. |
| Conversion.SameAngleUnique | include/vibrant.h:907-911 | Only one angle in [0, 360) is a whole number of turns from a given angle, so the normalisation is determined. |
| Conversion.NormalizeAnglePeriodic | include/vibrant.h:907-911 | Adding k full turns does not change the normalised angle. |
| Conversion.HslChannel | include/vibrant.h:881-891 | For s and l in [0, 1], the channel is in [0, 1] for every hue. With s = 0, or with l = 0 or 1, the channel equals l. |
| Conversion.HslToRgb | include/vibrant.h:893-905 | In-range inputs give unit-interval channels. Zero saturation gives the gray of the lightness. Lightness 0 is black and 100 is white. |
| Conversion.HslHuePeriodic | include/vibrant.h:509-527 | hsl(h + 360k, s, l, a) is the same colour as hsl(h, s, l, a). |
| Conversion.HslClampsPercentages | include/vibrant.h:523-526 | Saturation above 100 acts as 100. Lightness at or below 0 gives black, and at or above 100 gives white. Saturation at or below 0 gives the gray of the clamped lightness. |
| Conversion.PureHue | include/vibrant.h:881-891 | The fully saturated colour of a hue in [0, 360) is in the unit interval. Its six 60-degree sectors each hold one channel at 1 and one at 0, with the third moving linearly. |
| Conversion.HslPureHue | include/vibrant.h:881-905 | At saturation 100 and lightness 50, hsl_to_rgb gives exactly the pure hue. |
| Conversion.HslAroundLightness | include/vibrant.h:881-905 | Each channel f(0), f(8) and f(4) is the lightness moved by the chroma s*min(l, 1-l) toward the pure hue's channel: l + C*(2p - 1). |
| Conversion.NormalizeAngleInRange | include/vibrant.h:907-911 | An angle already in [0, 360) is unchanged. |
| Conversion.HslPureColor | include/vibrant.h:509-527 | hsl(h, 100, 50) is the pure hue of h, quantised, with alpha 255. |
| Conversion.HslTestColors | test/test-color.c:77-105 | hsl(0|120|240, 100, 50) are red, green and blue. hsl(30, 100, 50) is (255, 128, 0). |
| Conversion.HslMutedCyan | include/vibrant.h:24 | hsl(180, 50, 50) is (64, 191, 191, 255): a chromatic value with both sides of the lightness. |
| Conversion.HwbChannels | include/vibrant.h:557-576 | When w + b >= 1, the result is the gray w/(w+b). Otherwise every channel lies in [w, 1-b]. Always in the unit interval. |
| Conversion.BlendWithin | include/vibrant.h:571-574 | One blend step x*(1-w-b)+w maps [0, 1] into [w, 1-b]. |
| Conversion.HwbHuePeriodic | include/vibrant.h:546-577 | hwb(h + 360k, w, b, a) is the same colour as hwb(h, w, b, a). |
| Conversion.HwbBlendsPureHue | include/vibrant.h:567-574 | Below the gray line, each HWB channel is the pure hue's channel blended as x*(1-w-b)+w. |
| Conversion.HwbClampsWhiteness | include/vibrant.h:558 | Whiteness at or above 100 acts as 100, and at or below 0 acts as 0. |
| Conversion.HwbClampsBlackness | include/vibrant.h:559 | Blackness at or above 100 acts as 100, and at or below 0 acts as 0. |
| Conversion.HwbGrayLine | include/vibrant.h:557-566 | When the clamped whiteness and blackness reach 100 together, the colour is the gray w/(w+b) in every channel, whatever the hue. |
| Conversion.HwbPureColor | include/vibrant.h:557-576 | hwb(h, 0, 0) is the pure hue of h, quantised. |
| Conversion.HwbTestGrays | test/test-color.c:159-231 | hwb(0,0,100) is black, hwb(0,100,0) is white, hwb(0,50,50) is the gray 128, hwb(0,200,-50) is white after clamping, and hwb(720,100,0) is white. |
| Conversion.HwbTestHues | test/test-color.c:177-212 | hwb(0|120|240, 0, 0) are red, green and blue. hwb(30, 0, 0, 0.5) is (255, 128, 0, 128). |
| Conversion.HwbDesaturatedRed | test/test-color.c:215-219 | hwb(0, 20, 20) is (204, 51, 51, 255): a chromatic value off the gray line. |
| Conversion.BlendInPlace | include/vibrant.h:571-574 | The loop replaces every array element x with x*(1-w-b)+w. |
| Conversion.Rgb | include/vibrant.h:496-507 | Succeeds exactly when the receiver is non-null and alpha is finite. The receiver then shows the bytes with alpha clamped and quantised. Otherwise the receiver is untouched. On success the receiver keeps its tag and pointers. |
| Conversion.Hsl | include/vibrant.h:509-527 | Succeeds exactly when the receiver is non-null and all four arguments are finite. It then shows HslColor. Otherwise the receiver is untouched. On success the receiver keeps its tag and pointers. |
| Conversion.Hwb | include/vibrant.h:546-577 | The same guard as Hsl. On success it shows HwbColor, computed through the in-place blend of a three-element array. On success the receiver keeps its tag and pointers. |
| Conversion.Lab | include/vibrant.h:596-665 | The same guard. On success it shows the clamped output of the colour-space conversion, with lightness clamped to [0, 100]. On success the receiver keeps its tag and pointers. |
| Conversion.Lch | include/vibrant.h:579-594 | The same guard. On success it converts polar to Cartesian and delivers what vbt_lab delivers. On success the receiver keeps its tag and pointers. |
| Conversion.Oklab | include/vibrant.h:684-740 | The same guard. On success it shows the clamped Oklab output, with lightness clamped to [0, 100] as the code does. On success the receiver keeps its tag and pointers. |
| Conversion.Oklch | include/vibrant.h:667-682 | The same guard. On success it converts polar to Cartesian and delivers what vbt_oklab delivers. On success the receiver keeps its tag and pointers. |
| Text.SkipBlanks | include/vibrant.h:1084-1094 | Everything skipped is a space or a tab, and the character where skipping stops is neither. |
| Text.DigitsEnd | include/vibrant.h:1113-1120 | Everything in the run is a digit, and the character where the run stops is not. |
| Text.IntValueSnoc | include/vibrant.h:1118 | One more digit multiplies the value by ten and adds the digit, which is the accumulation res*10+d. |
| Text.FracValueSnoc | include/vibrant.h:1133-1140 | A further fraction digit adds its value at the next power of ten, which is the accumulation res += d*f; f *= 0.1. |
| Text.FracValueBelowOne | include/vibrant.h:1122-1145 | n fraction digits are worth at most 1 - 10^-n. |
| Text.NatDigitsRoundTrip | include/vibrant.h:1113-1120 | Reading back the decimal digits of n gives n. |
| Text.HasAtChar | include/vibrant.h:1201-1210 | A one-character literal is present exactly when that character is at the position. |
| Text.ToLowerCharIdempotent | include/vibrant.h:1064-1066 | Capitals become their small letters and every other character is unchanged. No capital remains, and applying it twice is the same as once. |
| Text.ToLower | include/vibrant.h:1064-1066 | Lowers the case character by character and keeps the length. |
| Scanner.Magnitude | include/vibrant.h:1122-1145 | Integer part plus fraction stays within [iv, NumberMax]. The fraction is ignored once iv reaches NumberMax. |
| Scanner.ScanNumber | include/vibrant.h:1098-1155 | A successful scan consumes at least one character and its value lies within ±NumberMax. |
| Scanner.ScanValue | include/vibrant.h:1157-1170 | Succeeds exactly when a number scans. The unit is Percent exactly when a '%' follows, and is never Unset. The end position counts the '%'. |
| Scanner.Delimit | include/vibrant.h:1212-1232 | The first delimiter fixes the mode: comma exactly when a ',' follows the blanks, otherwise blank. A fixed mode never changes. Comma mode needs a ',' and blank mode needs at least one blank. |
| Scanner.Cursor.constructor | include/vibrant.h:1282-1285 | The cursor starts at position 0 of the text. |
| Scanner.Cursor.ConsumeWhitespace | include/vibrant.h:1084-1094 | Moves the position to SkipBlanks and returns how many characters it skipped. |
| Scanner.Cursor.ConsumeIf | include/vibrant.h:1201-1210 | Steps over the literal exactly when it comes next. Otherwise the position does not move. |
| Scanner.Cursor.ParseNumber | include/vibrant.h:1098-1155 | Succeeds exactly when ScanNumber does. It then moves to its end and returns its value. On failure the position does not move. |
| Scanner.Cursor.NumberTail | include/vibrant.h:1122-1149 | After the integer digits, it computes ScanNumber's outcome: the bounded fraction, or failure when nothing was consumed. |
| Scanner.Cursor.IntegerPart | include/vibrant.h:1113-1120 | The integer loop fails exactly when the digit run's value exceeds NumberMax. Otherwise it returns that value. |
| Scanner.Cursor.FractionPart | include/vibrant.h:1122-1145 | The fraction loop fails exactly when there are more than 9 digits. Otherwise it returns Magnitude. |
| Scanner.Cursor.ConsumeCssValue | include/vibrant.h:1157-1170 | Computes ScanValue and moves past it. On failure the position does not move. |
| Scanner.Cursor.ConsumeDelimiter | include/vibrant.h:1212-1232 | Its outcome, new position and new mode are exactly Delimit. |
| Scanner.FractionStep | include/vibrant.h:1132-1141 | The guard res < NUMBER_MAX && f > 0 holds exactly while the integer part is below NumberMax. The added value never passes NumberMax. |
| Scanner.IntRunTooLarge | include/vibrant.h:1115-1117 | When the loop's overflow test fires, the whole digit run is above NumberMax. |
| Scanner.ScanInteger | include/vibrant.h:1098-1155 | A digit string scans as its value when that is at most NumberMax, and fails otherwise. |
| Scanner.IntegerRoundTrip | include/vibrant.h:1098-1155 | Printing n and scanning it back gives n up to NumberMax. Above NumberMax the scan fails. |
| Scanner.NumberMaxIsTheBound | include/vibrant.h:462 | 16777216 scans and 16777217 fails. |
| Scanner.ScanDecimal | include/vibrant.h:1122-1145 | digits.fraction scans as the magnitude of the two parts, or fails when the fraction has more than 9 digits. |
| Scanner.ScanDigitsAt | include/vibrant.h:1098-1170 | A run of digits with a value up to NumberMax, followed by no digit, '.' or '%', is the plain number of that value and ends after the run. |
| Scanner.ScanNumberPoint | include/vibrant.h:1122-1145 | With a point after the integer part, the scan ends after the fraction digits. |
| Scanner.TenthFractionDigitFails | include/vibrant.h:1127-1130 | Exactly 9 fraction digits are accepted. A tenth digit makes the number fail. |
| Scanner.SaturatedIgnoresFraction | include/vibrant.h:1133 | With an integer part of 16777216, fraction digits are consumed but add nothing. |
| Scanner.LoneSignOrPoint | include/vibrant.h:1147-1149 | "+", "-" and "." each scan as the number 0, one character long. |
| Scanner.NothingToScan | include/vibrant.h:1147-1149 | With no sign, digit or point next, the scan fails. |
| Scanner.ScanFailureReasons | include/vibrant.h:1098-1155 | When a sign, digit or point comes next, the scan can fail only through an integer part above NumberMax or a fraction that is too long. |
| Units.To01 | include/vibrant.h:1172-1179 | The result is in [0, 1]. A percentage in range is divided by 100. A number in range is kept. Out-of-range values clamp. |
| Units.PercentIsHundredth | include/vibrant.h:1172-1179 | p% means the same as the number p/100. |
| Units.ToPercent | include/vibrant.h:1181-1184 | The value clamped to [0, 100], whatever its unit. |
| Units.ToU8 | include/vibrant.h:1186-1199 | A percentage is quantised with 01_TO_255. A number is rounded half up and clamped to 0..255. |
| Units.ByteNumberIsExact | include/vibrant.h:1195-1198 | A whole number in 0..255 written as a plain number is that byte. |
| Units.PercentEndsOfByte | include/vibrant.h:1187-1193 | 0% gives 0 and 100% gives 255. |
| Units.LchChroma | include/vibrant.h:1234-1242 | A percentage is clamped to [0, 100] and scaled by 1.5. A number is unchanged. |
| Units.LabAb | include/vibrant.h:1244-1252 | A percentage is clamped to [-100, 100] and scaled by 1.25. A number is unchanged. |
| Units.OkLightness | include/vibrant.h:1254-1262 | The same mapping as to_01: the result is in [0, 1]. |
| Units.OklabAb | include/vibrant.h:1264-1272 | A percentage is clamped to [-100, 100] and scaled by 0.004. A number is unchanged. |
| Functions.Name | include/vibrant.h:1289-1302 | Every function name has 3 to 5 characters. |
| Functions.MatchName | include/vibrant.h:1289-1305 | The name cascade. A match is a prefix of the text. None is returned exactly when no name is a prefix. |
| Functions.NamesExclusive | include/vibrant.h:1289-1305 | Whatever name the text starts with is the one the cascade picks. |
| Functions.ArgsAfter | include/vibrant.h:1323-1341 | n successfully read arguments are n values, none Unset. After a delimiter the mode is decided. |
| Functions.ArgAt | include/vibrant.h:1325-1340 | One argument is one value that is not Unset. Unless it is the last, the mode is then decided. |
| Functions.AlphaArg | include/vibrant.h:1343-1368 | A read alpha is never Unset. Without the a-suffix and without a '/', alpha is the number 1. |
| Functions.FunctionSyntax | include/vibrant.h:1274-1387 | Not a call exactly when the text is shorter than 10 or starts with no name. A call has the kind whose name starts the text and four arguments, none Unset. |
| Functions.CallSyntax | include/vibrant.h:1317-1387 | After the name the outcome is never NotACall. A call keeps the kind and has four set arguments. |
| Functions.TailSyntax | include/vibrant.h:1343-1380 | A call extends the three values with a set alpha argument. |
| Functions.ScanOneDigit | include/vibrant.h:1157-1170 | A single digit followed by anything but a digit, '.' or '%' is that plain number. |
| Functions.NoNameAtStart | include/vibrant.h:1303-1305 | A text whose first character starts no name is not a call. |
| Functions.CommaLockRejectsBlank | include/vibrant.h:1227-1228 | After a comma, the next delimiter must be a comma, or the arguments fail. |
| Functions.BlankLockRejectsComma | include/vibrant.h:1231 | After blank separation, the next delimiter must be a blank, or the arguments fail. |
| Functions.MixedDelimitersFail | include/vibrant.h:1212-1232 | "rgb(0, 0 0)" is malformed. |
| Functions.RgbHead | include/vibrant.h:1289-1321 | A text of at least 10 characters starting with "rgb(" opens an rgb call at position 3. |
| Functions.MixedArguments | include/vibrant.h:1323-1341 | In "rgb(0, 0 0)" the argument loop fails. |
| Functions.MixedArgumentValues | include/vibrant.h:1323-1341 | The first argument of "rgb(0, 0 0)" locks comma mode. The second then fails without a comma. |
| Functions.DefaultAlpha | include/vibrant.h:1364-1367 | "rgb(1 2 3)" is the call with alpha 1 and is the colour (1, 2, 3, 255). |
| Functions.DefaultAlphaSyntax | include/vibrant.h:1354-1367 | The syntax of "rgb(1 2 3)" is four values, the last being the default alpha. |
| Functions.BlankArguments | include/vibrant.h:1323-1341 | In "rgb(1 2 3)" the three blank-separated values are read, in blank mode. |
| Functions.BlankArgumentValues | include/vibrant.h:1323-1341 | Each of the three arguments of "rgb(1 2 3)" is read as its plain number. |
| Functions.DelimitersAgree | include/vibrant.h:1212-1232 | For any three digit strings and any of the separators ", ", "," and " ", name(x<sep>y<sep>z) is the call with those three numbers and alpha 1. |
| Functions.CommaAndBlankAgree | test/test-parse.c:8-50 | rgb(x, y, z), rgb(x,y,z) and rgb(x y z), and likewise for the other functions, give the same colour for all numerals. |
| Functions.BlankThenCommaFails | include/vibrant.h:1230-1231 | "rgb(0 0, 0)" is malformed: once blank mode is locked, a comma with no blank before it is not a delimiter. |
| Functions.UpperCaseIsNotACall | include/vibrant.h:1289-1305 | "RGB(0,0,0)" is not a call, because names are case-sensitive. |
| Functions.ParseFunctionSyntax | include/vibrant.h:1274-1387 | The parser computes FunctionSyntax. The UNSET check never fires. |
| Functions.ConsumeHead | include/vibrant.h:1289-1317 | Finds the name by the cascade, then the 'a' and the blanks. The grammar continues from there. |
| Functions.HeadSyntax | include/vibrant.h:1307-1321 | The grammar after the name continues at the blanks past the optional 'a'. |
| Functions.ConsumeCall | include/vibrant.h:1319-1380 | From the '(' on, the parser computes CallSyntax and fills the argument array. |
| Functions.ConsumeName | include/vibrant.h:1289-1305 | The cascade returns MatchName and steps over the name. |
| Functions.ConsumeArguments | include/vibrant.h:1323-1341 | The loop succeeds exactly when ArgsAfter does. arg[0..3] then holds the three values, and the position and mode match. |
| Functions.ArgsExtend | include/vibrant.h:1323-1341 | Reading the n-th argument extends what the first n-1 left. |
| Functions.ConsumeArgument | include/vibrant.h:1325-1340 | One pass of the loop computes ArgAt. |
| Functions.ArgsFailStays | include/vibrant.h:1327-1339 | Once an argument fails, the loop fails: every return is VBT_ERR. |
| Functions.ConsumeAlpha | include/vibrant.h:1343-1368 | Reads alpha as AlphaArg describes it. |
| Functions.DelimitedAlpha | include/vibrant.h:1343-1353 | The a-suffix path: a delimiter in the locked mode, then a value that is required. |
| Functions.SlashAlpha | include/vibrant.h:1354-1368 | Without the a-suffix: an optional '/' and a value, or the default number 1. |
| Functions.ConsumeClose | include/vibrant.h:1370-1380 | Succeeds exactly when blanks, ')' and blanks reach the end of the text. |
| Functions.FunctionColor | include/vibrant.h:1391-1453 | A colour exists exactly when the text is a well-formed call. |
| Functions.ParseCssFunction | include/vibrant.h:1274-1454 | Returns NotAFunction exactly for a non-call and Success exactly for a well-formed call, whose colour the receiver then shows. On any failure the receiver is untouched. On success it keeps its tag and pointers. |
| Functions.Deliver | include/vibrant.h:1391-1453 | Each function's arguments are translated and delivered. Every entry point succeeds, because parsed values are finite and at most NumberMax. The receiver keeps its tag and pointers. |
| Hex.HexValue | include/vibrant.h:993-1005 | Returns a value exactly for the hex digits of either case, and that value is below 16. |
| Hex.HexCharRoundTrip | include/vibrant.h:993-1005 | Every nibble's digit reads back as that nibble. |
| Hex.HexValueIgnoresCase | include/vibrant.h:993-1005 | A digit reads the same in either case. |
| Hex.Nibble | include/vibrant.h:993-1005 | A digit's value is below 16. |
| Hex.ShiftOrIsPack | include/vibrant.h:1019 | (hi << 4) \| lo is 16*hi + lo for two nibbles. |
| Hex.HexColor | include/vibrant.h:1007-1043 | A colour exists exactly for lengths 4, 5, 7 and 9 with only hex digits after the '#'. The three-channel forms have alpha 255. |
| Hex.ParseHex | include/vibrant.h:1007-1043 | Succeeds exactly when HexColor exists, and the receiver then shows it. On an error the receiver is untouched. On success it keeps its tag and pointers. |
| Hex.ShortComponents | include/vibrant.h:1011-1020 | The short loop succeeds exactly on all hex digits. It fills one doubled-nibble channel per digit. |
| Hex.LongComponents | include/vibrant.h:1021-1035 | The long loop succeeds exactly on all hex digits. It fills one channel per digit pair. |
| Hex.ShortMeansDoubled | include/vibrant.h:1011-1021 | #rgb means #rrggbb, and #rgba means #rrggbbaa. |
| Hex.ShortExample | include/vibrant.h:1011-1021 | #2ae is #22aaee, which is (0x22, 0xaa, 0xee, 255). |
| Hex.ShortExampleValue | include/vibrant.h:1011-1021 | #2ae is (0x22, 0xaa, 0xee, 255). |
| Hex.HexIgnoresCase | include/vibrant.h:993-1005 | Lower-casing a hex text does not change its colour. |
| Hex.HexText | include/vibrant.h:1022-1037 | The eight-digit spelling has nine characters. |
| Hex.HexRoundTrip | include/vibrant.h:1007-1043 | Every colour's #rrggbbaa spelling reads back as that colour. |
| Hex.HexOpaqueRoundTrip | include/vibrant.h:1040-1042 | Its #rrggbb prefix reads back as the colour made opaque. |
| Names.Casecmp | include/vibrant.h:1068-1082 | Returns the first lower-cased difference, and 0 exactly when the prefixes agree ignoring case. |
| Names.CaseCompareZero | include/vibrant.h:1068-1082 | The comparison is 0 exactly when the lower-cased prefixes are equal. |
| Names.CaseCompareAntisymmetric | include/vibrant.h:1068-1082 | Swapping the texts negates the result. |
| Names.FindCssColor | include/vibrant.h:1868-1880 | A found colour has a 3 to 20 character text and belongs to a table entry equal to the text ignoring case. |
| Names.LookupCssColor | include/vibrant.h:1872-1880 | The lookup (length window, hash, slot length, casecmp) computes FindCssColor. |
| Names.ParseCssColorName | include/vibrant.h:1456-1467 | Succeeds exactly for a found name, and the receiver then shows its colour. Otherwise the receiver is untouched. On success it keeps its tag and pointers. |
| Names.NamesIgnoreCase | include/vibrant.h:1872-1877 | A name and its lower-cased form find the same colour. |
| Names.LowerIdempotent | include/vibrant.h:1064-1066 | Lower-casing twice is the same as lower-casing once. |
| Names.EveryNameIsFound | include/vibrant.h:1872-1877 | Every table name of admissible length is found, in any case. |
| Names.LengthWindow | include/vibrant.h:1872 | Texts shorter than 3 or longer than 20 characters are never names. |
| Dispatch.TextColor | include/vibrant.h:975-985 | '#' routes to the hex notations. A call goes to the function parser, and only a non-call goes to the names. |
| Dispatch.Parse | include/vibrant.h:970-986 | A zero or too-long length, a null text or a null receiver is an error. Otherwise Success holds exactly when the text denotes a colour, which the receiver then shows. An error leaves the receiver untouched, a success keeps its tag and pointers, and NotAFunction never escapes. |
| Dispatch.NulIndex | include/vibrant.h:1052-1055 | The first NUL at or after i, or the end. |
| Dispatch.SafeLength | include/vibrant.h:1045-1062 | 0 for null. Otherwise the NUL's index, which is within the limit. It is 0 when there is no NUL within limit+1 characters. |
| Dispatch.StrlenSafe | include/vibrant.h:1045-1062 | The loop computes SafeLength. |
| Dispatch.ParseZ | include/vibrant.h:988-991 | vbt_parse on the measured length: the same outcome and frame, including the kept tag and pointers on success. |
| Dispatch.TerminatedLength | include/vibrant.h:1045-1062 | A NUL within the limit gives its index as the length. |
| Dispatch.OverlongIsRefused | include/vibrant.h:1057-1058 | Without a NUL among the first 129 characters, the length is 0, which vbt_parse refuses. |
| Dispatch.NamesOnlyForNonCalls | include/vibrant.h:979-985 | A text of 10 or more characters that starts with a function name never reaches the colour names, even when malformed. |

## Left out

- The f32/f64 receivers (`VBT_RECV_VAL_F32/F64`, `VBT_RECV_REF_F32/F64`), and unknown tags, are not modelled. They convert to floating point and are a format adapter only.
- The generated colour table and `vbt__hash` are not modelled. They are parameters: `table` is a sequence of entries and `slot` is the hash. Names.NamesIgnoreCase assumes that the hash ignores case, as the generator's `--ignore-case` makes it.
- The LAB and Oklab matrix and companding arithmetic, and the polar-to-Cartesian step with `cos`/`sin`, are not modelled. They are the `ColorMath` parameter. Only the finiteness guards, the lightness clamp and the final clamps of `vbt_lab`, `vbt_lch`, `vbt_oklab` and `vbt_oklch` are modelled.
- Floating-point rounding is not modelled. Numbers are exact reals, so `f *= 0.1` and `d * f` carry no rounding error, and the fraction overflow guard is proved unreachable instead of being modelled as a branch.
- Scanner.Cursor.ParseNumber: the fraction value is exact. The C accumulation differs from it by floating-point rounding.
- Conversion.NormalizeAngle: states the mathematical `fmod` on reals. `vbt__fmod` is the C library's.
- Conversion.Lch: promises success for every finite hue, whereas C fails for a huge one. In C, `hue * PI` overflows to infinity for a finite hue above the largest number divided by pi (about 1.08e38 with `float`, for example `vbt_lch(50, 10, 2e38, 1)`). Its cosine and sine are then NaN, and `vbt_lab`'s finiteness check returns VBT_ERR. Exact reals cannot overflow, so the model does not capture that error.
- Conversion.Oklch: the same overflow of `hue * PI` for a huge finite hue, which in C ends in VBT_ERR through `vbt_oklab`, is not captured.
- Memory behind a `const char*` is modelled as an `Option<string>` holding the rest of the buffer. Reading past an unterminated buffer is excluded by the requires of Dispatch.ParseZ (`Scannable`).
- The C++ receiver initialisers other than the 8-bit ones, the `VIBRANT_NO_PARSE` and `VIBRANT_IMPLEMENTATION` switches, and the test harness are not modelled.
- `vbt_recv_init_tag` for the floating-point tags is not modelled. It belongs to the left-out receivers.
