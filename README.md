# Bigben controller drivers, modelled in Dafny

The system connects Bigben Interactive gamepads to macOS through two layers.

- **DriverKit driver.** `BigbenUSBDriver` owns the USB interface. It polls the interrupt-in pipe for 64-byte controller reports, caches the last one and forwards it to the HID stack. It also sends 8-byte LED/rumble reports on the interrupt-out pipe.
- **Virtual HID gamepad.** `BigbenHIDDevice` exposes a standard 10-byte gamepad report. It fills that report with `InputTranslator`, which masks the buttons, clamps the hat and applies stick and trigger deadzones. It answers GET/SET report requests and builds LED and rumble frames.
- **User-space library.** The C library in `BigbenUSB.c` talks to the XInput-mode controller through libusb. It decodes 20-byte XInput reports, encodes the rumble frame, and keeps a library reference count and the open/connected/reading flags of a controller.

Two constant HID report descriptors are shared with the host:

- the one for the virtual device, in `HIDReportDescriptor.h`;
- the one the USB driver builds, in `BigbenUSBDriver.cpp`.

Both are read as short items following section 6.2.2 of the USB Device Class Definition for HID 1.11.

## Modules

Each source component is a module.

| file | module | contents |
|---|---|---|
| `c_types.dfy` | `CTypes` | Fixed-width integers as bounded `int`s, bitwise operations, C truncating division, and the two's-complement casts to `int16_t`/`int8_t`. |
| `hid_items.dfy` | `HidItems` | HID short items: encoding and decoding of the item bytes, and the item-state walk (global and local state, collections, fields and the bits per report). |
| `bigben_protocol.dfy` | `BigbenProtocol` | `Shared/BigbenProtocol.h`: the 64-byte input report and the 8-byte LED and rumble reports with their byte codecs, button, D-pad and LED values, and the helper macros. |
| `hid_report_descriptor.dfy` | `HidReportDescriptor` | `Shared/HIDReportDescriptor.h`: the descriptor array, its walk, and the 10-byte `BigbenHIDReport` with its codec. |
| `usb_report_descriptor.dfy` | `UsbReportDescriptor` | The descriptor array of `BigbenUSBDriver.cpp` and its walk. |
| `input_translator.dfy` | `Translator` | `InputTranslator`: pure functions for the helpers, and a class for the object with its two deadzone fields. |
| `bigben_usb.dfy` | `BigbenUsb` | `BigbenUSB.c` and `BigbenUSB.h`: the XInput codec, the rumble frame, the library reference count (class `UsbLibrary`) and the controller (class `Controller`). |
| `io_kit.dfy` | `IoKit` | The DriverKit status codes and HID report types the drivers use. |
| `hid_device.dfy` | `HidDevice` | Class `BigbenHidDevice`, the ivars of `BigbenHIDDevice`. |
| `usb_driver.dfy` | `UsbDriver` | Class `BigbenUsbDriver`, the ivars of `BigbenUSBDriver`; the output buffer memory is an `array<byte>`. |

### Inputs that stand in for calls outside the model

Every call into libusb or DriverKit becomes a parameter carrying its outcome:

- `superStart`, `setupResult`, `mapResult`, `asyncResult`, `requeueResult`, `createResult`, `handleResult`, `openResult`, `claimResult`, `writeResult` and `libusbInit`;
- a transfer's status and bytes (`Transfer`);
- whether an allocation or a thread start succeeded (`allocates`, `threadCreated`, `bufferCreated`);
- whether a mapped address was non-zero (`addressValid`);
- whether an argument passed by address was non-null (`present`, or an `Option`).

A DriverKit object the drivers hold is a flag saying whether it is present.

Reports handed on are recorded in sequence fields:

- `forwarded`: reports forwarded to the HID stack;
- `dispatched`: reports dispatched by the virtual device;
- `submitted`: output reports queued on the pipe;
- `delivered`: reports given to the input callback;
- `notifications`: connection callbacks.

### Behaviour the model records as the code has it

Each item below is stated by a lemma or a contract.

- **Shared report ID.** The input and LED reports share report ID 1 (`BigbenProtocol.ReportIdsShared`). The USB driver's `setReport` therefore takes the LED branch for every request naming ID 1, rumble frames included (`UsbDriver.LedPathPrecedence`).
- **The USB driver's descriptor does not describe the report it forwards.**
  - The report forwarded is the raw 64-byte controller report (`UsbDriver.BigbenUsbDriver.ReadComplete`).
  - Its length is 64, while the descriptor declares 1 + 72/8 = 10 bytes (`UsbReportDescriptor.ForwardedLengthDiffers`).
  - Its stick bytes do land in the descriptor's stick fields (`UsbReportDescriptor.ForwardedSticksMatch`).
  - The fields declared as Z and Rz read the D-pad byte and the low byte of the buttons (`UsbReportDescriptor.ForwardedTriggersMisplaced`).
- **The HID device's translator starts with no deadzone.** `IONewZero` zero-fills the ivars without running the `InputTranslator` constructor:
  - the device's translator is built by `Translator.InputTranslator.ZeroFilled`, with deadzones 0 and 0, and not by the constructor with deadzone 12;
  - that translator still satisfies the class invariant.
- **Descriptor length.** The comment gives its size as 71 bytes, but the array holds 79 (`HidReportDescriptor.DescriptorLength`).
- **`BIGBEN_ANALOG_TO_SIGNED` range.** The comment says −127..127, but the cast maps 0 to −128 (`BigbenProtocol.AnalogToSignedBijection`).
- **No restart after a disconnect.**
  - The reader loop ends on NO_DEVICE or IO without clearing `running`.
  - A later `bigben_start_reading` therefore returns 0 and starts no thread (`BigbenUsb.RestartAfterDisconnect`).
- **Success without dispatch.** The virtual device's `handleInputReport` returns success without dispatching the report in two cases:
  - buffer creation reports success but yields no buffer;
  - the map succeeds but yields address 0.

  A failing creation or map returns its own status. In every case the cache was already updated before the buffer was created (`HidDevice.BigbenHidDevice.HandleInputReport`).
- **USB `getReport` and report ID 0.** The USB driver's `getReport` accepts only report ID 1, while the virtual device's also accepts ID 0.

## Model

| member | source | states |
|---|---|---|
| CTypes.TruncDiv | BigbenControllerDriver/Sources/InputTranslator.cpp:167-171 | C's `/` on `int16_t`: a quotient truncated toward zero, bounded from below for non-negative dividends and from above for negative ones. |
| CTypes.ToInt16 | BigbenControllerApp/Sources/CUSBController/BigbenUSB.c:210-213 | The cast to `int16_t` keeps the value modulo 2^16. |
| CTypes.Le16 | Shared/BigbenProtocol.h:53 | A packed little-endian `uint16_t`: the low byte is its first byte and the high byte its second. |
| BigbenProtocol.ReportIdsShared | Shared/BigbenProtocol.h:29-31 | The input and LED report IDs are equal; the rumble ID differs from both. |
| BigbenProtocol.InputReportOf | Shared/BigbenProtocol.h:46-57 | Definition: the packed fields read from the first 64 bytes; properties in `InputReportRoundTrip` and `InputReportBytesRoundTrip`. |
| BigbenProtocol.InputReportBytes | Shared/BigbenProtocol.h:37-57 | The packed input report is 64 bytes, the declared input report size. |
| BigbenProtocol.InputReportRoundTrip | Shared/BigbenProtocol.h:46-57 | Reading back the bytes of a report gives that report. |
| BigbenProtocol.InputReportBytesRoundTrip | Shared/BigbenProtocol.h:46-57 | Every 64-byte buffer is the encoding of the report read from it. |
| BigbenProtocol.ButtonBit | Shared/BigbenProtocol.h:65-79 | Each button has a bit index below 13, at which it sits in the button order. |
| BigbenProtocol.ButtonMask | Shared/BigbenProtocol.h:65-79 | Definition: each enumerator's flag; properties in `ButtonMaskBit`, `ButtonMasksDisjoint` and `ButtonUnion`. |
| BigbenProtocol.ButtonMaskBit | Shared/BigbenProtocol.h:65-79 | Each button flag is the single bit `1 << index`. |
| BigbenProtocol.ButtonMasksDisjoint | Shared/BigbenProtocol.h:65-79 | Two different button flags share no bit. |
| BigbenProtocol.ButtonUnion | Shared/BigbenProtocol.h:65-79 | The union of all 13 button flags is 0x1FFF. |
| BigbenProtocol.MaskUnionInOrder | Shared/BigbenProtocol.h:65-79 | Flags for bits 0..n−1 in order OR together to 2^n − 1. |
| BigbenProtocol.DPadValue | Shared/BigbenProtocol.h:85-95 | D-pad values run 0..8, and 8 is exactly the neutral direction. |
| BigbenProtocol.DPadOf | Shared/BigbenProtocol.h:85-95 | A byte names a D-pad direction exactly when it is at most 8. |
| BigbenProtocol.DPadRoundTrip | Shared/BigbenProtocol.h:85-95 | Reading a direction's value gives back the direction. |
| BigbenProtocol.DPadValueRoundTrip | Shared/BigbenProtocol.h:85-95 | Every value 0..8 is the value of the direction read from it. |
| BigbenProtocol.LedMask | Shared/BigbenProtocol.h:127-133 | Definition: each LED's bit; properties in `LedAllIsUnion`. |
| BigbenProtocol.LedAllIsUnion | Shared/BigbenProtocol.h:127-133 | The LEDs are the bits 1, 2, 4 and 8, and `BIGBEN_LED_ALL` is their OR. |
| BigbenProtocol.LedReportBytes | Shared/BigbenProtocol.h:38-109 | The LED report is 8 bytes, the output report size. |
| BigbenProtocol.RumbleReportBytes | Shared/BigbenProtocol.h:38-119 | The rumble report is 8 bytes, the output report size. |
| BigbenProtocol.LedReportOf | Shared/BigbenProtocol.h:103-109 | Definition: the LED report read from 8 bytes; properties in `LedReportRoundTrip`. |
| BigbenProtocol.RumbleReportOf | Shared/BigbenProtocol.h:111-119 | Definition: the rumble report read from 8 bytes; properties in `RumbleReportRoundTrip`. |
| BigbenProtocol.LedReportRoundTrip | Shared/BigbenProtocol.h:103-109 | LED reports and 8-byte buffers convert into each other losslessly, both ways. |
| BigbenProtocol.RumbleReportRoundTrip | Shared/BigbenProtocol.h:111-119 | Rumble reports and 8-byte buffers convert into each other losslessly, both ways. |
| BigbenProtocol.AnalogToSigned | Shared/BigbenProtocol.h:139-140 | Definition: `(int8_t)(x - 128)`; properties in `AnalogToSignedBijection`. |
| BigbenProtocol.AnalogToSignedBijection | Shared/BigbenProtocol.h:139-140 | The macro maps 128 to 0, 0 to −128 and 255 to 127; it is strictly increasing, and every `int8_t` is reached. |
| BigbenProtocol.BtnPressed | Shared/BigbenProtocol.h:142-143 | Definition: `(buttons & btn) != 0`; properties in `BtnPressedBit`. |
| BigbenProtocol.BtnPressedBit | Shared/BigbenProtocol.h:142-143 | `BIGBEN_BTN_PRESSED` with a button flag is the test of that button's bit. |
| HidReportDescriptor.DescriptorParses | Shared/HIDReportDescriptor.h:20-153 | The array is consumed exactly by short items, and encoding those items gives the array back. |
| HidReportDescriptor.DescriptorLayout | Shared/HIDReportDescriptor.h:20-153 | The walk ends with one balanced application collection. The Input fields are buttons, X/Y, Rx/Ry, Z/Rz, hat and padding, with their usages and globals, and report 1 totals 72 input bits. |
| HidReportDescriptor.DescriptorLength | Shared/HIDReportDescriptor.h:18-155 | The array, and so its size constant, is 79 bytes (39 items), not the 71 its comment gives. |
| HidReportDescriptor.HidReportBytes | Shared/HIDReportDescriptor.h:162-178 | The packed virtual report is 10 bytes. |
| HidReportDescriptor.HidReportOf | Shared/HIDReportDescriptor.h:164-174 | Definition: the virtual report read from 10 bytes; properties in `HidReportRoundTrip` and `HidReportBytesRoundTrip`. |
| HidReportDescriptor.HidReportRoundTrip | Shared/HIDReportDescriptor.h:164-174 | Reading back the bytes of a virtual report gives that report. |
| HidReportDescriptor.HidReportBytesRoundTrip | Shared/HIDReportDescriptor.h:164-174 | Every 10-byte buffer is the encoding of the report read from it. |
| HidReportDescriptor.ReportSizeMatchesDescriptor | Shared/HIDReportDescriptor.h:161-178 | The descriptor's 72 input bits are whole bytes, and the report is 1 byte of ID plus 72/8 bytes. |
| HidReportDescriptor.ButtonsMatchDescriptor | Shared/HIDReportDescriptor.h:37-59 | Button field i, read after the ID byte, is 1 exactly when bit i of the report's buttons is set. |
| HidReportDescriptor.LeftStickMatchesDescriptor | Shared/HIDReportDescriptor.h:65-87 | The X and Y fields read the report's left stick bytes. |
| HidReportDescriptor.RightStickMatchesDescriptor | Shared/HIDReportDescriptor.h:93-100 | The Rx and Ry fields, inheriting size and count, read the right stick bytes. |
| HidReportDescriptor.TriggersAndHatMatchDescriptor | Shared/HIDReportDescriptor.h:106-149 | The Z and Rz fields read the triggers, and the hat field reads the low 4 bits of the hat byte. |
| HidReportDescriptor.HatSwitchNull | Shared/HIDReportDescriptor.h:119-149 | The hat has the Null State flag, logical range 0..7 and physical range 0..315. The neutral value 8 lies outside the logical range but fits the 4-bit field, and constant padding fills the byte. |
| UsbReportDescriptor.UsbDescriptorParses | BigbenControllerDriver/Sources/BigbenUSBDriver.cpp:53-231 | The 141-byte array is consumed exactly by short items, and their encoding gives it back. |
| UsbReportDescriptor.UsbDescriptorLayout | BigbenControllerDriver/Sources/BigbenUSBDriver.cpp:53-229 | The walk ends balanced, with the application collection and the logical effect collection. Input report 1 totals 72 bits and output report 2 totals 32, with no output bits for report 1. The first fields are the sticks, then Z/Rz. |
| UsbReportDescriptor.SticksAreBytes | BigbenControllerDriver/Sources/BigbenUSBDriver.cpp:71-95 | The four stick fields are the first four bytes after the report ID. |
| UsbReportDescriptor.TriggersAreBytes | BigbenControllerDriver/Sources/BigbenUSBDriver.cpp:97-110 | The Z and Rz fields, inheriting size 8, are the fifth and sixth bytes after the ID. |
| UsbReportDescriptor.ForwardedSticksMatch | BigbenControllerDriver/Sources/BigbenUSBDriver.cpp:705 | Read through the descriptor, the forwarded 64-byte report has its sticks in the stick fields. |
| UsbReportDescriptor.ForwardedTriggersMisplaced | BigbenControllerDriver/Sources/BigbenUSBDriver.cpp:705 | Read through the descriptor, the forwarded report's Z is its D-pad byte and its Rz the low byte of its buttons. |
| UsbReportDescriptor.ForwardedLengthDiffers | BigbenControllerDriver/Sources/BigbenUSBDriver.cpp:700-707 | The forwarded report is 64 bytes, while the descriptor declares a 10-byte input report. |
| Translator.HidButtonIndex | BigbenControllerDriver/Sources/InputTranslator.h:50-67 | HID button indices are 0..15. |
| Translator.HidButtonIndices | BigbenControllerDriver/Sources/InputTranslator.h:50-67 | Each controller button's HID index is its bit in the proprietary mask, and exactly the three reserved buttons have index ≥ 13. |
| Translator.TranslateButtons | BigbenControllerDriver/Sources/InputTranslator.cpp:87-111 | Definition: the copy of buttons 0..12; properties in `TranslateButtonsBits`, `TranslateButtonsValue`, `TranslateButtonsIdempotent` and `TranslateAllButtons`. |
| Translator.TranslateButtonsBits | BigbenControllerDriver/Sources/InputTranslator.cpp:87-111 | Bit i of the translated buttons is set exactly when i < 13 and bit i of the input is set. |
| Translator.TranslateButtonsValue | BigbenControllerDriver/Sources/InputTranslator.cpp:110 | `translateButtons` is the input reduced modulo 0x2000, that is `& 0x1FFF`. |
| Translator.TranslateButtonsIdempotent | BigbenControllerDriver/Sources/InputTranslator.cpp:110 | Translating translated buttons changes nothing. |
| Translator.TranslateAllButtons | BigbenControllerDriver/Sources/InputTranslator.cpp:110 | The result is the full 13-button mask exactly when all 13 low input bits are set. |
| Translator.TranslateDPadToHat | BigbenControllerDriver/Sources/InputTranslator.cpp:117-140 | Definition: 0..8 unchanged, anything else neutral; properties in `TranslateDPadToHatRange`. |
| Translator.TranslateDPadToHatRange | BigbenControllerDriver/Sources/InputTranslator.cpp:117-140 | Values 0..8 pass through and anything above 8 becomes 8, so the result is at most the hat's neutral value, and translating twice changes nothing. |
| Translator.RescaleOffset | BigbenControllerDriver/Sources/InputTranslator.cpp:158-172 | Definition: the stretched offset with truncating division; properties in `DeadzoneNoOverflow`. |
| Translator.ApplyDeadzone | BigbenControllerDriver/Sources/InputTranslator.cpp:146-187 | Definition: centre band, rescale and clamp; properties in the `Deadzone*` rows. |
| Translator.DeadzoneZeroIsIdentity | BigbenControllerDriver/Sources/InputTranslator.cpp:146-187 | With deadzone 0 the stick value is unchanged. |
| Translator.DeadzoneCentre | BigbenControllerDriver/Sources/InputTranslator.cpp:152-172 | Inside the deadzone the result is 128. For deadzones below 127 the result is 128 exactly when the value is within the deadzone or on its edge. |
| Translator.DeadzoneNoOverflow | BigbenControllerDriver/Sources/InputTranslator.cpp:158-172 | Outside the deadzone the rescaled offset stays within −254..127, so the `int16_t` arithmetic does not overflow. |
| Translator.DeadzoneKeepsSide | BigbenControllerDriver/Sources/InputTranslator.cpp:146-187 | Inputs at or above 128 give results at or above 128, and inputs at or below 128 give results at or below 128. |
| Translator.DeadzoneEndpoints | BigbenControllerDriver/Sources/InputTranslator.cpp:158-186 | 255 maps to 255 for every allowed deadzone, and 0 maps to 0 for deadzones up to 128. |
| Translator.DeadzoneMonotone | BigbenControllerDriver/Sources/InputTranslator.cpp:146-187 | The stick deadzone never reverses the order of two inputs. |
| Translator.DeadzoneExamples | Tests/DriverTests/InputTranslatorTests.cpp:341-381 | The asserted values of the tests hold. 100 with deadzone 12 gives 111, the truncating result (Euclidean division would give 110). |
| Translator.ApplyTriggerDeadzone | BigbenControllerDriver/Sources/InputTranslator.cpp:189-208 | Definition: zero band, rescale and clamp; properties in the `Trigger*` rows. |
| Translator.TriggerZeroIsIdentity | BigbenControllerDriver/Sources/InputTranslator.cpp:189-208 | With deadzone 0 the trigger value is unchanged. |
| Translator.TriggerReleased | BigbenControllerDriver/Sources/InputTranslator.cpp:194-196 | Below the deadzone the trigger reads 0. For deadzones below 255 it reads 0 exactly when the value is at most the deadzone. |
| Translator.TriggerRange | BigbenControllerDriver/Sources/InputTranslator.cpp:199-207 | The rescaled trigger never exceeds 255, and 255 always maps to 255. |
| Translator.TriggerMonotone | BigbenControllerDriver/Sources/InputTranslator.cpp:189-208 | The trigger deadzone never reverses the order of two inputs. |
| Translator.TriggerExamples | Tests/DriverTests/InputTranslatorTests.cpp:395-422 | The asserted trigger values of the tests hold. |
| Translator.TranslateWith | BigbenControllerDriver/Sources/InputTranslator.cpp:52-81 | Definition: report ID 1 and each field through its helper; properties in `RestTranslatesToNeutral`, `TranslatedReportValid` and `TranslatedButtons`, and `InputTranslator.Translate` is tied to it. |
| Translator.NeutralReport | BigbenControllerDriver/Sources/InputTranslator.cpp:214-231 | Definition: nothing pressed, sticks centred, hat neutral; properties in `RestTranslatesToNeutral`, `NeutralReportReleased` and `HidDevice.NeutralReportCacheable`. |
| Translator.RestTranslatesToNeutral | BigbenControllerDriver/Sources/InputTranslator.cpp:52-81 | A controller at rest translates to exactly the neutral report, whatever the deadzones. |
| Translator.TranslatedReportValid | BigbenControllerDriver/Sources/InputTranslator.cpp:52-81 | Every translated report has ID 1, no reserved button bit, and a hat of at most 8. |
| Translator.IsButtonPressed | BigbenControllerDriver/Sources/InputTranslator.h:227-233 | Pressed exactly when the report is present, the index is at most 15 and the index's bit is set. |
| Translator.TranslatedButtons | BigbenControllerDriver/Sources/InputTranslator.h:227-233 | After translation each button reads as pressed exactly when `BIGBEN_BTN_PRESSED` holds for it in the input, and the reserved buttons never read as pressed. |
| Translator.NeutralReportReleased | BigbenControllerDriver/Sources/InputTranslator.cpp:214-231 | No button reads as pressed in the neutral report. |
| Translator.InputTranslator.constructor | BigbenControllerDriver/Sources/InputTranslator.cpp:18-22 | The default object has deadzone 12 and trigger deadzone 0. |
| Translator.InputTranslator.WithDeadzone | BigbenControllerDriver/Sources/InputTranslator.cpp:24-32 | The deadzone is clamped to 127; the trigger deadzone is 0. |
| Translator.InputTranslator.ZeroFilled | BigbenControllerDriver/Sources/BigbenHIDDevice.cpp:70 | Zero-filled storage is a translator with both deadzones 0, which satisfies the class invariant. |
| Translator.InputTranslator.SetDeadzone | BigbenControllerDriver/Sources/InputTranslator.cpp:38-41 | Stores the deadzone clamped to 127 and keeps the trigger deadzone. |
| Translator.InputTranslator.SetTriggerDeadzone | BigbenControllerDriver/Sources/InputTranslator.cpp:43-46 | Stores the trigger deadzone verbatim and keeps the stick deadzone. |
| Translator.InputTranslator.GetDeadzone | BigbenControllerDriver/Sources/InputTranslator.h:217-220 | Returns the stored deadzone, which is at most 127. |
| Translator.InputTranslator.GetTriggerDeadzone | BigbenControllerDriver/Sources/InputTranslator.h:222-225 | Returns the stored trigger deadzone. |
| Translator.InputTranslator.Translate | BigbenControllerDriver/Sources/InputTranslator.cpp:52-81 | Fails and leaves the output untouched when the input or the output is null. Otherwise the output becomes the field-by-field translation under the object's deadzones. |
| Translator.InitializeNeutralReport | BigbenControllerDriver/Sources/InputTranslator.cpp:214-231 | Does nothing for a null report; otherwise writes the neutral report. |
| BigbenUsb.Int16Word | BigbenControllerApp/Sources/CUSBController/BigbenUSB.c:210-213 | Every `int16_t` has a 16-bit word that casts back to it. |
| BigbenUsb.WordInt16 | BigbenControllerApp/Sources/CUSBController/BigbenUSB.c:210-213 | The cast from a 16-bit word to `int16_t` loses nothing. |
| BigbenUsb.XInputReportBytes | BigbenControllerApp/Sources/CUSBController/include/BigbenUSB.h:19-30 | The packed XInput report is 20 bytes. |
| BigbenUsb.Word | BigbenControllerApp/Sources/CUSBController/BigbenUSB.c:206-212 | Definition: `data[i] \| data[i + 1] << 8`; properties in `WordValue`. |
| BigbenUsb.WordValue | BigbenControllerApp/Sources/CUSBController/BigbenUSB.c:205-213 | `b[i] \| b[i+1] << 8` is the little-endian word of the two bytes. |
| BigbenUsb.Decode | BigbenControllerApp/Sources/CUSBController/BigbenUSB.c:203-213 | Definition: the fields written from a transfer of at least 14 bytes; properties in `DecodeEncode` and `EncodeDecode`. |
| BigbenUsb.DecodeEncode | BigbenControllerApp/Sources/CUSBController/BigbenUSB.c:203-213 | Decoding a report's bytes gives back every field the decoder writes; the reserved bytes are kept from the previous report. |
| BigbenUsb.EncodeDecode | BigbenControllerApp/Sources/CUSBController/BigbenUSB.c:203-213 | Encoding a decoded report reproduces bytes 0..13 of the transfer. |
| BigbenUsb.XButtonMask | BigbenControllerApp/Sources/CUSBController/include/BigbenUSB.h:33-47 | Definition: the mask of each XInput button; properties in `XButtonMasks` and `XButtonsDisjoint`. |
| BigbenUsb.XButtonMasks | BigbenControllerApp/Sources/CUSBController/include/BigbenUSB.h:33-47 | The 15 masks are single bits below 16, pairwise distinct, and none is 0x0800. |
| BigbenUsb.XButtonsDisjoint | BigbenControllerApp/Sources/CUSBController/include/BigbenUSB.h:33-47 | Two different masks share no bit, so the four D-pad bits are independent. |
| BigbenUsb.RumbleFrame | BigbenControllerApp/Sources/CUSBController/BigbenUSB.c:278-285 | The rumble frame is 8 bytes. |
| BigbenUsb.RumbleFrameFields | BigbenControllerApp/Sources/CUSBController/BigbenUSB.c:278-285 | The weak and strong intensities sit at bytes 3 and 4, and two frames are equal exactly when their intensities are. |
| BigbenUsb.FindBigbenDevice | BigbenControllerApp/Sources/CUSBController/BigbenUSB.c:86-107 | Finds nothing without a list. Any device it finds is the first whose descriptor matches the vendor and a supported product; no match means no device in the list matches. |
| BigbenUsb.UsbLibrary.constructor | BigbenControllerApp/Sources/CUSBController/BigbenUSB.c:28-29 | The globals start with count 0 and no context, which satisfies the class invariant. |
| BigbenUsb.UsbLibrary.Init | BigbenControllerApp/Sources/CUSBController/BigbenUSB.c:31-44 | Only the first call initialises the library. A failed first call returns its error and leaves the count 0; any other call increments the count. |
| BigbenUsb.UsbLibrary.Cleanup | BigbenControllerApp/Sources/CUSBController/BigbenUSB.c:46-56 | Decrements the count. When it drops to 0 or below the library is torn down and the count reset to 0, so it never goes negative. |
| BigbenUsb.Controller.constructor | BigbenControllerApp/Sources/CUSBController/BigbenUSB.c:58-64 | `calloc`: the state is `ZeroController`, every field zero. |
| BigbenUsb.Create | BigbenControllerApp/Sources/CUSBController/BigbenUSB.c:58-64 | Null exactly when allocation fails; otherwise a fresh controller whose every field is zero, `delivered` and `notifications` included. |
| BigbenUsb.SetInputCallback | BigbenControllerApp/Sources/CUSBController/BigbenUSB.c:74-78 | Records whether an input callback is set; every other field is unchanged, and a null controller is left alone. |
| BigbenUsb.SetConnectionCallback | BigbenControllerApp/Sources/CUSBController/BigbenUSB.c:80-84 | Records whether a connection callback is set; every other field is unchanged, and a null controller is left alone. |
| BigbenUsb.IsConnected | BigbenControllerApp/Sources/CUSBController/BigbenUSB.c:177-179 | Connected exactly when the controller exists and its flag is set. |
| BigbenUsb.Notify | BigbenControllerApp/Sources/CUSBController/BigbenUSB.c:151-153 | The connection callback hears the new state only when it is set. |
| BigbenUsb.Open | BigbenControllerApp/Sources/CUSBController/BigbenUSB.c:109-156 | Returns −1 with no controller or context, and 0 without change when already open. No Bigben device in the list (−1), a failed open or a failed claim returns that status with the controller exactly as it was. Success takes the handle, connects and notifies `true` once, and changes nothing else. |
| BigbenUsb.Close | BigbenControllerApp/Sources/CUSBController/BigbenUSB.c:158-175 | The controller becomes `Closed` of its old state: not running, no handle, no connection, and `false` notified only if it was connected. Callbacks, readers and deliveries are unchanged. |
| BigbenUsb.Destroy | BigbenControllerApp/Sources/CUSBController/BigbenUSB.c:66-72 | Stopping and then closing leaves the controller `Closed` of its old state, exactly as one close does. |
| BigbenUsb.ClosedIdempotent | BigbenControllerApp/Sources/CUSBController/BigbenUSB.c:158-175 | Closing a closed controller changes nothing, and a closed controller has no reader, handle or connection. |
| BigbenUsb.Poll | BigbenControllerApp/Sources/CUSBController/BigbenUSB.c:181-216 | Returns −1 without controller, handle or report. A transfer error is returned with the report untouched; success returns 0 and decodes only when at least 14 bytes arrived. The result is never positive. |
| BigbenUsb.ReadStep | BigbenControllerApp/Sources/CUSBController/BigbenUSB.c:222-237 | One pass: NO_DEVICE or IO disconnects, notifies `false` and ends the loop with `running` still set; a successful poll hands the report to the input callback. |
| BigbenUsb.Passes | BigbenControllerApp/Sources/CUSBController/BigbenUSB.c:222-238 | The loop makes at most one pass per transfer, and at least one when there is a transfer. |
| BigbenUsb.FeedCount | BigbenControllerApp/Sources/CUSBController/BigbenUSB.c:222-238 | Without a callback nothing is delivered. With a handle and only successful transfers one report is delivered per transfer, and never more reports than passes. |
| BigbenUsb.Pass | BigbenControllerApp/Sources/CUSBController/BigbenUSB.c:222-237 | One pass, stated as its step through the passes and the deliveries of the whole run. |
| BigbenUsb.ReadThread | BigbenControllerApp/Sources/CUSBController/BigbenUSB.c:218-240 | The loop delivers exactly the reports `Feed` names. It ends at the first lost device, and only there, and then has disconnected and notified `false` once (if the connection callback was set) while `running` stays set. Handle, readers and both callbacks are unchanged. |
| BigbenUsb.StartReading | BigbenControllerApp/Sources/CUSBController/BigbenUSB.c:242-261 | Returns −1 without controller or handle, and 0 while running; both change nothing. A failed thread start returns −1 with the controller as it was. A started thread sets `running` and adds one reader, and nothing else changes. |
| BigbenUsb.StopReading | BigbenControllerApp/Sources/CUSBController/BigbenUSB.c:263-270 | Clears `running` and changes no other field, so it is a no-op when not running. |
| BigbenUsb.RestartAfterDisconnect | BigbenControllerApp/Sources/CUSBController/BigbenUSB.c:225-249 | After a pass that loses the device, `bigben_start_reading` returns 0 but starts no reader. |
| BigbenUsb.SetRumble | BigbenControllerApp/Sources/CUSBController/BigbenUSB.c:272-297 | Returns −1 and sends nothing without a handle. Otherwise it sends exactly the rumble frame and returns the transfer's error or 0. |
| HidDevice.NeutralReportCacheable | BigbenControllerDriver/Sources/BigbenHIDDevice.cpp:82-83 | The neutral report that `init` caches satisfies the cache invariant. |
| HidDevice.LedFrameFor | BigbenControllerDriver/Sources/BigbenHIDDevice.cpp:571-581 | The LED frame is `[1, 0x08, mask, 0, 0, 0, 0, 0]`. |
| HidDevice.RumbleFrameFor | BigbenControllerDriver/Sources/BigbenHIDDevice.cpp:539-546 | The rumble frame has ID 2 and marker 0x08. Its motor-on byte is 1 exactly when the right motor is non-zero (else 0); it carries the left force, duration 0xFF and zero padding. |
| HidDevice.RumbleRebuild | BigbenControllerDriver/Sources/BigbenHIDDevice.cpp:400-412 | A rumble request rebuilt from its motor bytes equals the request exactly when the request already has the fixed marker, an on/off byte, duration 0xFF and zero padding. |
| HidDevice.BigbenHidDevice.constructor | BigbenControllerDriver/Sources/BigbenHIDDevice.cpp:60-88 | Defaults: no USB driver, LED 1, not started, no valid report, the neutral report cached, and a zero-filled translator. |
| HidDevice.BigbenHidDevice.Start | BigbenControllerDriver/Sources/BigbenHIDDevice.cpp:110-168 | A failing parent start is returned. Otherwise the device is started and success is returned whatever registration returns. |
| HidDevice.BigbenHidDevice.Stop | BigbenControllerDriver/Sources/BigbenHIDDevice.cpp:170-179 | Clears `isStarted` and returns the parent's result. |
| HidDevice.BigbenHidDevice.SetUsbDriver | BigbenControllerDriver/Sources/BigbenHIDDevice.cpp:520-527 | Records whether a USB driver is attached. |
| HidDevice.BigbenHidDevice.GetReport | BigbenControllerDriver/Sources/BigbenHIDDevice.cpp:285-348 | Succeeds exactly for an input request for report 0 or 1 with a successful map of at least 10 bytes, and then copies the cached or neutral report. Each way of failing has its own status. |
| HidDevice.BigbenHidDevice.HandleInputReport | BigbenControllerDriver/Sources/BigbenHIDDevice.cpp:437-514 | The rejections come in source order and leave the cache alone. An accepted report is translated into the cache before any buffer exists; it is dispatched only when buffer creation and the map succeed. |
| HidDevice.BigbenHidDevice.SendRumbleToUsb | BigbenControllerDriver/Sources/BigbenHIDDevice.cpp:529-557 | NotReady without a USB driver; otherwise success with the rumble frame. Nothing changes. |
| HidDevice.BigbenHidDevice.SendLedToUsb | BigbenControllerDriver/Sources/BigbenHIDDevice.cpp:559-590 | Stores the mask as the LED state even without a USB driver, then returns NotReady or success with the LED frame. |
| HidDevice.BigbenHidDevice.SetReport | BigbenControllerDriver/Sources/BigbenHIDDevice.cpp:350-431 | Succeeds exactly for a full LED or rumble request with a USB driver attached. An LED request stores its mask; the frames built are those of the request's bytes; each rejection has its own status. |
| HidDevice.InputThenGetReport | BigbenControllerDriver/Sources/BigbenHIDDevice.cpp:464-470 | Even when the report buffer cannot be created, a following GET returns the translation of the report just received. |
| IoKit.RequestedReportId | BigbenControllerDriver/Sources/BigbenUSBDriver.cpp:881 | The report ID a request names is the low byte of its options. |
| UsbDriver.PadToOutput | BigbenControllerDriver/Sources/BigbenUSBDriver.cpp:810-815 | Exactly 8 bytes: the data followed by zeros. |
| UsbDriver.PadToOutputInjective | BigbenControllerDriver/Sources/BigbenUSBDriver.cpp:810-815 | Padding leaves a full report as it is, and distinct data of one length pad differently. |
| UsbDriver.ShortLedRequestPads | BigbenControllerDriver/Sources/BigbenUSBDriver.cpp:810-815 | A 3-byte LED request goes out as the full LED report for its mask. |
| UsbDriver.OutputPathFor | BigbenControllerDriver/Sources/BigbenUSBDriver.cpp:896-909 | The LED branch takes ID 1 from the options or the first byte and is checked first. The rumble branch takes ID 2 the same way; anything else goes to neither. |
| UsbDriver.LedPathPrecedence | BigbenControllerDriver/Sources/BigbenUSBDriver.cpp:896-906 | A rumble frame sent with options naming 1, and any frame starting with 1, takes the LED branch; a rumble frame with options naming 2 takes the rumble branch. |
| UsbDriver.BigbenUsbDriver.constructor | BigbenControllerDriver/Sources/BigbenUSBDriver.cpp:271-306 | No USB object, every flag false, every counter 0. |
| UsbDriver.BigbenUsbDriver.Start | BigbenControllerDriver/Sources/BigbenUSBDriver.cpp:321-408 | A failing parent start or setup step is returned. Otherwise the resources are in place (the output endpoint only if the device has one) and polling starts; the driver is started and connected exactly when that succeeds. |
| UsbDriver.BigbenUsbDriver.SetUpResources | BigbenControllerDriver/Sources/BigbenUSBDriver.cpp:350-388 | After the setup steps succeed: the interface, the input pipe with buffer and read action, and the HID descriptor are held; the output pipe, buffer and write action exactly when the device has that endpoint. |
| UsbDriver.BigbenUsbDriver.Stop | BigbenControllerDriver/Sources/BigbenUSBDriver.cpp:410-431 | Stops polling, releases every resource and clears the state flags, keeping the counters, the cache and the logs of forwarded and submitted reports, and returns the parent's result. |
| UsbDriver.BigbenUsbDriver.CleanupResources | BigbenControllerDriver/Sources/BigbenUSBDriver.cpp:952-1002 | No resource remains, whatever the polling state, and no other field changes. |
| UsbDriver.BigbenUsbDriver.StartInputPolling | BigbenControllerDriver/Sources/BigbenUSBDriver.cpp:607-638 | NotReady without pipe, buffer or action. Success with no second read when already polling; otherwise the first read's status, and polling exactly when that read was queued. |
| UsbDriver.BigbenUsbDriver.StopInputPolling | BigbenControllerDriver/Sources/BigbenUSBDriver.cpp:640-656 | Polling has stopped. |
| UsbDriver.BigbenUsbDriver.ParseInputReport | BigbenControllerDriver/Sources/BigbenUSBDriver.cpp:725-754 | Caches the report only for at least 64 bytes with report ID 1, in which case its bytes are the data's first 64; otherwise nothing changes. |
| UsbDriver.BigbenUsbDriver.Requeue | BigbenControllerDriver/Sources/BigbenUSBDriver.cpp:711-721 | Queues the next read only while polling and connected, and a failed queue stops polling. |
| UsbDriver.BigbenUsbDriver.ReadComplete | BigbenControllerDriver/Sources/BigbenUSBDriver.cpp:658-723 | Aborted or NotResponding changes nothing. Other errors and short reads count one error; a full read with a good map counts one report, forwards the buffer and caches it if it has ID 1. Every other completion re-queues while polling and connected, and at most one counter moves. |
| UsbDriver.BigbenUsbDriver.WriteComplete | BigbenControllerDriver/Sources/BigbenUSBDriver.cpp:778-787 | Counts only successful writes. |
| UsbDriver.BigbenUsbDriver.SendOutputReport | BigbenControllerDriver/Sources/BigbenUSBDriver.cpp:789-830 | NotFound without the output pipe or buffer, BadArgument beyond 8 bytes, and a failing map returned. Otherwise the buffer memory becomes the padded data; 8 bytes are submitted when queued, and nothing is touched on any failure. |
| UsbDriver.BigbenUsbDriver.SetReport | BigbenControllerDriver/Sources/BigbenUSBDriver.cpp:866-910 | Checks the arguments, then takes the branch `OutputPathFor` names and sends the data through `SendOutputReport`; with no branch it is Unsupported and sends nothing. |
| UsbDriver.BigbenUsbDriver.GetReport | BigbenControllerDriver/Sources/BigbenUSBDriver.cpp:912-946 | Succeeds exactly for an input request for report 1 with a cached report and a good map, copying min(buffer length, 64) bytes of it. Otherwise NotReady, the map's status or Unsupported. |
| UsbDriver.BigbenUsbDriver.GetHidDescriptor | BigbenControllerDriver/Sources/BigbenUSBDriver.cpp:836-853 | Succeeds exactly when the out-parameter is present and the descriptor exists; otherwise BadArgument or NotReady. |
| UsbDriver.FullCopyReadsBack | BigbenControllerDriver/Sources/BigbenUSBDriver.cpp:937-941 | A buffer of at least 64 bytes receives the whole cached report, which reads back as that report. |
| UsbDriver.DescriptorLifetime | BigbenControllerDriver/Sources/BigbenUSBDriver.cpp:836-853 | The descriptor is available after a successful `Start` and gone after `Stop`. |

## Left out

- **Foreign calls.** libusb and DriverKit internals (device enumeration, open/claim/detach, transfers, `CopyPipe`, `AsyncIO`, `Abort`, buffer creation and mapping, `RegisterService`, `OSAction`, retain/release) are foreign. Only their outcomes enter the model, as parameters.
- **Concurrency.** The reader thread's interleaving with `bigben_stop_reading`, the `volatile` flags and `pthread_join` are not modelled. A stop from another thread is the end of the transfer sequence `ReadThread` is given.
- **Noise.** Logging, timestamps, `LogControllerState`, `usb_test.c` and the test harness of `InputTranslatorTests.cpp` carry no behaviour. The tests' assertions appear only as `DeadzoneExamples` and `TriggerExamples`.
- **`newDeviceDescription` and `newReportDescriptor`.** They only wrap constants in DriverKit objects.
- **`init` failure and `free`.** The allocation-failure paths of `init` (a false return) and the paths taken when `ivars` is null are not modelled. The model always has its ivars.
- **`ConfigureDevice`, `OpenInterface`, `SetupInterruptInEndpoint`, `SetupInterruptOutEndpoint`, `CreateHIDReportDescriptor`.** These are foreign-call sequences. They become one `setupResult` of `UsbDriver.BigbenUsbDriver.Start`.
- UsbDriver.BigbenUsbDriver.Start: does not say which resources a failing setup step leaves behind; it states only the returned status and that the driver is not started. The optional output endpoint, whose absence is only a warning, is the `outputEndpoint` flag.
- HidDevice.BigbenHidDevice.Start: does not track the cached descriptor buffer, which changes no result.
- UsbDriver.BigbenUsbDriver.StopInputPolling: the `Abort` of the pipe is a foreign call; only the flag is modelled.
- **`handleReport` of the USB driver.** It only forwards to the parent class. Forwarding is recorded as the `forwarded` sequence.
- **Forwarding LED and rumble frames.** `sendRumbleToUSB` and `sendLEDToUSB` build their frames but do not forward them to the USB driver in the source. The model returns the built frame and sends nothing.
- **Counter width.** The `uint64_t` counters are unbounded `nat`s; wrap-around after 2^64 events is not modelled.
- The descriptor lemmas state the bit budgets, collection nesting and padding of both arrays. They do not model how the host's HID parser uses them.
