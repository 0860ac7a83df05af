# Sequential logic of three UPM drivers, in Dafny

This project models the parts of three hardware drivers that have
sequential, verifiable behaviour. The lower-level hardware library's GPIO,
I2C and analog calls are abstracted. Each GPIO line or I2C device becomes a
log of the writes made to it. Each clock or analog input becomes a parameter.

- **StepMotor** (`stepmotor.dfy`, module `StepMotorDriver`): a stepper
  driver with a direction line, a step line and an optional enable line.
  The class `StepMotor` keeps the fields of the driver: the per-step delay,
  the steps per revolution and the cumulative position. It also logs every
  pulse issued on the step line (with its direction) and every level driven
  on the enable line. The object invariant `Valid()` says the position is the
  position last set (0 at construction) plus the net pulses issued since.
  The step within one revolution is derived from the position.
- **SSD1308** (`ssd1308.dfy`, module `Ssd1308Display`): an OLED controller
  driven by I2C register writes. Each write is a command (`LCD_CMD`) or
  display data (`LCD_DATA`). The class `SSD1308` owns the write log. Each
  operation appends exactly the writes given by a pure function: the cursor
  commands with their nibble arithmetic, the 8-byte glyph of a character
  (unprintable characters are drawn as a space), the addressing-mode
  commands, and the clear and home sequences. Status results are those the
  bus reports for particular writes. The bus's failures are a fixed set of
  write positions.
- **TA12200** (`ta12200.dfy`, module `Ta12200Sensor`): a current sensor with
  two parts. The first is a millisecond clock measured from a recorded
  start time. It uses `timeval` subtraction with a borrow, a 32-bit count,
  and never reads 0. The second is a peak sampler. It keeps the largest
  analog reading in a one-second window and stops at a failed read.
- `arith.dfy` (module `DivMod`): uniqueness of quotient and remainder,
  used by the three models.

## Model

| member | source | states |
|---|---|---|
| `StepMotorDriver.StepMotor.constructor` | src/stepmotor/stepmotor.hpp:67-75 | steps per revolution default to 200; there is an enable line exactly when an enable pin (default -1, none) is given; position starts at 0; the delay is the period for the default 60 rpm |
| `StepMotorDriver.StepMotor.Enable` | src/stepmotor/stepmotor.hpp:82-89 | drives the enable line to the flag when there is one, does nothing otherwise, keeps the object invariant, and never changes position or pulses |
| `StepMotorDriver.StepMotor.SetSpeed` | src/stepmotor/stepmotor.hpp:91-96 | a positive speed sets the delay to the step period for that speed; otherwise the delay is unchanged |
| `StepMotorDriver.StepPeriod` | src/stepmotor/stepmotor.hpp:91-96 | the delay is the largest whole number of microseconds with which `speed` revolutions of `steps` pulses fit in one minute |
| `StepMotorDriver.StepMotor.Move` | src/stepmotor/stepmotor.hpp:154-160 | one pulse is logged in the given direction and the position changes by exactly +1 or -1, keeping the invariant |
| `StepMotorDriver.StepMotor.Step` | src/stepmotor/stepmotor.hpp:98-104 | positive ticks issue that many clockwise pulses and negative ticks that many counter-clockwise pulses; the position changes by exactly `ticks` |
| `StepMotorDriver.StepPulses` | src/stepmotor/stepmotor.hpp:98-104 | a step command issues abs(ticks) pulses whose net displacement is `ticks` |
| `StepMotorDriver.StepMotor.StepForward` | src/stepmotor/stepmotor.hpp:106-111 | always clockwise: `ticks` clockwise pulses are logged and the position grows by `ticks` |
| `StepMotorDriver.StepMotor.StepBackward` | src/stepmotor/stepmotor.hpp:113-118 | always counter-clockwise: `ticks` counter-clockwise pulses are logged and the position shrinks by `ticks` |
| `StepMotorDriver.StepMotor.SetPosition` | src/stepmotor/stepmotor.hpp:120-126 | the position becomes `pos`; delay, steps, pulse log and enable line are untouched; the recorded mark becomes `pos` at the current end of the pulse log, so later positions count from `pos` |
| `StepMotorDriver.StepMotor.GetPosition` | src/stepmotor/stepmotor.hpp:128-134 | the position is the last set position (0 after construction) plus the net displacement of every pulse issued since |
| `StepMotorDriver.StepTwice` | src/stepmotor/stepmotor.hpp:128-134 | position is cumulative: step(a) then step(b) moves by a + b, and both runs are logged in order |
| `StepMotorDriver.DisplacementAppend` | src/stepmotor/stepmotor.hpp:128-134 | the net displacement of two runs of pulses is the sum of their displacements |
| `StepMotorDriver.DisplacementRepeat` | src/stepmotor/stepmotor.hpp:98-118 | n pulses in one direction move exactly n steps that way |
| `StepMotorDriver.StepMotor.GetStep` | src/stepmotor/stepmotor.hpp:136-141 | the step is in [0, steps) and congruent to the position modulo the steps per revolution, for negative positions too |
| `StepMotorDriver.StepOf` | src/stepmotor/stepmotor.hpp:136-141 | the step within a revolution lies in [0, steps) and differs from the position by whole revolutions |
| `StepMotorDriver.StepOfRevolution` | src/stepmotor/stepmotor.hpp:136-141 | whole revolutions in either direction leave the step unchanged |
| `StepMotorDriver.StepOfForward` | src/stepmotor/stepmotor.hpp:106-111 | a clockwise pulse advances the step by one, wrapping from steps - 1 to 0 |
| `StepMotorDriver.StepOfBackward` | src/stepmotor/stepmotor.hpp:113-118 | a counter-clockwise pulse moves the step back by one, wrapping from 0 to steps - 1 |
| `StepMotorDriver.StepOfAfter` | src/stepmotor/stepmotor.hpp:98-104 | after step(ticks) the step is the old step plus ticks, modulo the steps per revolution |
| `Ssd1308Display.SSD1308.constructor` | src/lcd/ssd1308.cxx:21-41 | writes display off, display on, normal display, then the whole clear sequence, then page addressing mode |
| `Ssd1308Display.SSD1308.Draw` | src/lcd/ssd1308.cxx:47-58 | selects horizontal mode, then writes exactly the first `bytes` bytes of `data` as display data in order; always succeeds |
| `Ssd1308Display.DataWritesRoundTrip` | src/lcd/ssd1308.cxx:53-55 | the data writes are all to the data register and carry exactly the bytes they were made from |
| `Ssd1308Display.SSD1308.Write` | src/lcd/ssd1308.cxx:65-74 | selects page mode, then writes the glyph of each character of the message in order; always succeeds |
| `Ssd1308Display.GlyphsAt` | src/lcd/ssd1308.cxx:69-71 | the glyphs of a message are 8 writes per character, and write 8k + j is byte j of the glyph of character k |
| `Ssd1308Display.GlyphsLength` | src/lcd/ssd1308.cxx:69-71 | a message of n characters gives 8n writes, all display data |
| `Ssd1308Display.SSD1308.SetCursor` | src/lcd/ssd1308.cxx:76-90 | appends exactly the three cursor commands, and returns what the bus reported for the last of them only |
| `Ssd1308Display.CursorAddress` | src/lcd/ssd1308.cxx:81-87 | on the display, the cursor commands select page `row` and a column address whose high and low nibbles form 8 * column |
| `Ssd1308Display.LowColumnNibble` | src/lcd/ssd1308.cxx:82-83 | the low column nibble is 0 for an even character column and 8 for an odd one |
| `Ssd1308Display.HighColumnNibble` | src/lcd/ssd1308.cxx:85-87 | the high column nibble is below 16 and is half the character column, modulo 16 |
| `Ssd1308Display.ColumnNibbles` | src/lcd/ssd1308.cxx:82-87 | high and low nibble together give the pixel column 8 * column, modulo 256 |
| `Ssd1308Display.SSD1308.Clear` | src/lcd/ssd1308.cxx:92-110 | appends display off, then for each of the 8 rows a cursor move to its start and 16 space glyphs, then display on and home; always succeeds |
| `Ssd1308Display.ClearRowsAt` | src/lcd/ssd1308.cxx:98-105 | row r of the clear sequence is a cursor move to row r, column 0, followed by 16 space glyphs |
| `Ssd1308Display.ClearRowsLength` | src/lcd/ssd1308.cxx:98-105 | blanking n rows takes 131 writes per row |
| `Ssd1308Display.ClearLength` | src/lcd/ssd1308.cxx:92-110 | clear makes 1 + 8 * 131 + 1 + 3 register writes |
| `Ssd1308Display.ClearDrawsOnlySpaces` | src/lcd/ssd1308.cxx:101-104 | every display-data byte clear writes is a byte of the space glyph |
| `Ssd1308Display.SSD1308.Home` | src/lcd/ssd1308.cxx:112-116 | writes exactly what SetCursor(0, 0) writes and returns its result |
| `Ssd1308Display.SSD1308.WriteChar` | src/lcd/ssd1308.cxx:123-136 | appends the 8 bytes of the glyph of the character as display data, in order, and returns the bus result of the eighth |
| `Ssd1308Display.Clamp` | src/lcd/ssd1308.cxx:127-129 | the character drawn is in [0x20, 0x7F]; it is the character itself exactly when that is in range, and a space otherwise |
| `Ssd1308Display.GlyphRow` | src/lcd/ssd1308.cxx:132 | the font row `value - 32` after clamping is always in [0, 96) |
| `Ssd1308Display.UnprintableIsSpace` | src/lcd/ssd1308.cxx:127-133 | a character below 0x20 or above 0x7F is drawn with the space glyph |
| `Ssd1308Display.SSD1308.SetNormalDisplay` | src/lcd/ssd1308.cxx:138-144 | appends the normal-display command and returns its bus result |
| `Ssd1308Display.SSD1308.SetAddressingMode` | src/lcd/ssd1308.cxx:146-153 | appends exactly the memory-addressing-mode command and then the mode, and returns the bus result of the second |
| `Ta12200Sensor.TA12200.constructor` | src/ta12200/ta12200.cxx:21-23 | the clock starts at construction time |
| `Ta12200Sensor.TA12200.InitClock` | src/ta12200/ta12200.cxx:38-41 | records the start time that later clock readings are measured from |
| `Ta12200Sensor.Elapsed` | src/ta12200/ta12200.cxx:51-60 | the borrowed difference is exactly the time between the two instants, and for clock readings its microseconds stay in [0, 1000000) |
| `Ta12200Sensor.CDiv` | src/ta12200/ta12200.cxx:62 | C division truncates toward zero: the remainder `a - q*b` has the sign of the dividend and is smaller than the divisor in magnitude |
| `Ta12200Sensor.ToUint32` | src/ta12200/ta12200.cxx:62 | the cast to `uint32_t` gives a value in [0, 2^32) congruent to its argument modulo 2^32 |
| `Ta12200Sensor.Millis` | src/ta12200/ta12200.cxx:43-69 | the clock reading is a 32-bit value that is never 0 |
| `Ta12200Sensor.TA12200.GetMillis` | src/ta12200/ta12200.cxx:43-69 | returns the clock reading measured from the recorded start time |
| `Ta12200Sensor.MillisIsWholeMillis` | src/ta12200/ta12200.cxx:51-68 | for clock readings the result is the whole milliseconds elapsed, modulo 2^32, with 0 reported as 1 |
| `Ta12200Sensor.MillisWithinFirstMilli` | src/ta12200/ta12200.cxx:64-66 | less than a millisecond after the start the clock reads 1, not 0 |
| `Ta12200Sensor.MillisExact` | src/ta12200/ta12200.cxx:62 | until the count wraps, the clock reads exactly the elapsed whole milliseconds |
| `Ta12200Sensor.FirstFailure` | src/ta12200/ta12200.cxx:81-84 | the position of the first failed read (-1), with no failed read before it |
| `Ta12200Sensor.WindowCount` | src/ta12200/ta12200.cxx:79 | the number of loop tests, in order, that find the sampling window open |
| `Ta12200Sensor.TA12200.HighestValue` | src/ta12200/ta12200.cxx:72-91 | only readings taken while the window is open count; the result is -1 exactly when one of them failed, and then no reading after it is taken; otherwise all are taken and the result is at least 0, at least every reading, and 0 or one of them |
| `Ta12200Sensor.WindowOpenAsWritten` | src/ta12200/ta12200.cxx:79 | the loop test as written: for a start reading in [0, 2^32) the deadline is `start + 1000` while that fits in 32 bits and `start + 1000 - 2^32` once it wraps, and the test holds exactly when the reading is below the deadline |
| `Ta12200Sensor.WindowOpen` | src/ta12200/ta12200.cxx:79 | the loop test as intended: for readings in [0, 2^32) it holds exactly when fewer than 1000 ms separate the start and the reading, counted forward and across the wrap of the count |
| `Ta12200Sensor.WindowAsWrittenEmptyNearWrap` | src/ta12200/ta12200.cxx:76-79 | with the 32-bit sum `start + 1000`, a window starting in the last 1000 ms before the count wraps is empty: every reading from the start up to the wrap fails the test, while the intended window is open at the start |
| `Ta12200Sensor.WindowOpenExactly` | src/ta12200/ta12200.cxx:76-79 | the corrected window is open exactly for the first 1000 ms after its start, whatever the start |
| `Ta12200Sensor.WindowAgreesBeforeWrap` | src/ta12200/ta12200.cxx:79 | away from the wrap, the loop test as written and the corrected window agree |

## Left out

- GPIO, I2C and analog-input transactions are not modelled as bus behaviour. Writes become logs and reads become parameters.
- Wall-clock waits are not modelled. This covers the `usleep` calls in the SSD1308 constructor, the StepMotor pulse timing and its blocking delay loop.
- The system clock (`gettimeofday`) is not read. The instants at which it would be read are parameters.
- Destructors are not modelled; they only release handles.
- Exceptions thrown by constructors on a bad pin or I2C address are not modelled.
- `TA12200::milliAmps` is left out because it is floating-point arithmetic.
- The MG811, LM35 and MAX44000 drivers, the HD44780 constant header and the GSR example program are not part of this model. They are floating-point calibration, register maps or I/O.
- StepMotorDriver.StepMotor.SetSpeed: only the header is modelled. Two things are assumptions: the delay formula 60000000 / (speed * steps), and that a speed that is not positive is ignored. The per-pulse wait, the delay less `MINPULSE_US` and `OVERHEAD_US`, is not modelled.
- StepMotorDriver.StepMotor.StepForward: a tick count that is not positive moves nothing. This is an assumption, since the header does not say.
- StepMotorDriver.StepMotor.StepBackward: a tick count that is not positive moves nothing. This is an assumption, since the header does not say.
- StepMotorDriver.StepMotor.Step: the `mraa::Result` of the step commands is not modelled, because the header does not say when they fail. Failure part-way through a motion is not modelled either.
- StepMotorDriver.StepMotor.GetStep: the header says the step "ranges from 0 to number of steps per revolution". The model takes the remainder of the position, which is in [0, steps).
- StepMotorDriver.StepMotor.constructor: it requires a positive step count. The header does not say whether the constructor drives the enable line, so the enable log starts empty.
- StepMotor: 32-bit overflow of the `int` position and tick counts is not modelled, because signed overflow is undefined in C++.
- SSD1308: the constant headers are not part of this model. The command values follow the SSD1308 datasheet, and no proven property depends on them except the nibble layout.
- SSD1308: the font table `BasicFont` is a parameter of the object.
- Ssd1308Display.SSD1308.Write: the message is a sequence of bytes; a `char` of the `std::string` is passed on as its `uint8_t` value.
- Ssd1308Display.SSD1308.SetCursor: overflow of `8 * column` for huge columns is not modelled. `&` with a low mask and the arithmetic shift `>>` on two's-complement values are modelled as remainder and floor division.
- Ta12200Sensor.Millis: overflow of the 64-bit `tv_sec * 1000` is not modelled.
- Ta12200Sensor.TA12200.HighestValue: the clock readings the loop takes are given as numbers, as GetMillis would return them. The window test is the corrected one (see Findings). The readings must end with one outside the window, so that each modelled call terminates.

## Findings

| source | as written | input that shows it | evidently intended | confidence | as-written member | corrected member |
|---|---|---|---|---|---|---|
| src/ta12200/ta12200.cxx:76-79 | the window deadline `start + 1000` is a 32-bit unsigned sum, which wraps | a start reading of 4294966796 (2^32 - 500) puts the deadline at 500, so the first loop test fails with no time elapsed and `highestValue` returns 0 without reading | sample for 1000 ms after the start reading whatever its value, for example `(uint32_t)(getMillis() - start) < 1000` | high; not executed | `Ta12200Sensor.WindowAsWrittenEmptyNearWrap` | `Ta12200Sensor.WindowOpenExactly` |
