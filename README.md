# BHARMOS AArch64 system-register layer, in Dafny

BHARMOS is a small AArch64 kernel. This project models three parts of it:

- **System-register layouts** (`include/bharmos/registers.h`). The header declares seven registers as structs of `u64` bit-fields: CurrentEL, ESR_EL1, ELR_EL1, FAR_EL1, SCTLR_EL1, SPSR_EL1 and VBAR_EL1. The AAPCS64 bit-field rules place fields from the least significant bit upward, in declaration order. So a struct is exactly its list of `(name, width)` declarations.
  - Module `Layout` takes such a list (a `Table`) and defines three pure functions over a 64-bit value: `Decode` (read every field), `Encode` (assemble fields) and `SetField` (assign one field).
  - Module `Registers` holds the seven tables. Their longer declaration lists are written as concatenations of consecutive groups.
- **The current exception level** (`include/bharmos/exceptions.h`). Module `Exceptions` models `get_current_el` as a function of the raw CurrentEL value, converted to `u8`.
- **Console output** (`kernel/kernel.c`). Module `Kernel` models `putchar`, `print` and `kmain` as methods of a class `Kernel`.
  - The class's constant `uart` field stands for the global `uart` pointer.
  - The UART data register is a `Uart` object. It records, in order, every byte stored to it.

Values are mathematical integers: `u64` is `0 .. 2^64-1` and `u8` is `0 .. 255` (module `Sizes`). Shifts and masks on unsigned values are stated as division and remainder by powers of two (module `Bits`). `Extract(x, off, w)` is `(x >> off) & (2^w - 1)`.

Assigning to a C bit-field stores the value modulo `2^width`. `Encode` and `SetField` do the same: the code has no overflow check. A design description of this layer mentions a `FieldOverflow` error for too-wide values and an `UnexpectedHardwareState` check on the decoded level. Neither exists in the code, and the model follows the code.

## Model

| member | source | states |
|---|---|---|
| Layout.OffsetStep | include/bharmos/registers.h:14-18 | each field starts exactly where the previously declared one ends (fields are allocated LSB-first in declaration order) |
| Layout.OffsetMonotone | include/bharmos/registers.h:14-18 | a later-declared field never starts below an earlier one |
| Layout.FieldsDisjoint | include/bharmos/registers.h:39-98 | no two fields of a struct overlap, and every field ends within the struct's total width |
| Layout.OwnerOf | include/bharmos/registers.h:39-98 | a bit belongs to some field exactly when it lies below the total width, and that field's bit range contains it |
| Layout.OwnerUnique | include/bharmos/registers.h:39-98 | at most one field owns any bit |
| Layout.InsertShifts | include/bharmos/registers.h:60-61 | inserting one declaration moves every later field up by its width |
| Layout.Decode | include/bharmos/registers.h:14-129 | decoding gives exactly one value per declared field |
| Layout.DecodeBound | include/bharmos/registers.h:14-129 | every decoded value fits its field: it is below 2^width |
| Layout.DecodeField | include/bharmos/registers.h:14-129 | decoded field i equals `(raw >> offset_i) & (2^width_i - 1)`, where the offset is the sum of the widths declared before it |
| Layout.Encode | include/bharmos/registers.h:14-129 | an assembled value fits in the struct's total width |
| Layout.DecodeEncodeAt | include/bharmos/registers.h:14-129 | assembling values and decoding field i returns value i modulo 2^width of that field |
| Layout.EncodeDecode | include/bharmos/registers.h:14-129 | decoding and re-assembling keeps exactly the bits the fields cover and clears the rest |
| Layout.DecodeEncode | include/bharmos/registers.h:14-129 | assembling values and decoding returns each value modulo 2^width, as bit-field storage keeps it |
| Layout.RoundTrip | include/bharmos/registers.h:14-36 | for a struct whose widths sum to 64, decoding and re-assembling reproduces every 64-bit value bit for bit |
| Layout.CoversIffRoundTrip | include/bharmos/registers.h:14-129 | a struct that fits in 64 bits round-trips every 64-bit value if and only if its widths sum to exactly 64 |
| Layout.IndexOf | include/bharmos/registers.h:14-129 | finds a declaration with the given name, and returns none exactly when no declaration has that name |
| Layout.FieldValue | include/bharmos/registers.h:14-129 | reading a field by name gives none exactly when no field has that name; otherwise it gives that field's bits of the raw value |
| Layout.SetField | include/bharmos/registers.h:14-129 | assigning v to field i of a 64-bit value changes that field to v mod 2^width and leaves every other field's value unchanged |
| Layout.SetFieldKeepsOtherBits | include/bharmos/registers.h:14-129 | assigning one field leaves every bit outside [offset, offset + width) unchanged |
| Registers.SctlrEl1Widths | include/bharmos/registers.h:39-98 | the SCTLR_EL1 declarations sum to 63 bits; with the reserved bit 17 inserted, they sum to 64 |
| Registers.SpsrEl1Width | include/bharmos/registers.h:101-123 | the SPSR_EL1 declarations sum to 64 bits |
| Registers.DeclaredCoverage | include/bharmos/registers.h:14-129 | every declared struct fits in 64 bits; every one except SCTLR_EL1 sums to exactly 64; SCTLR_EL1 sums to 63, so a sum-to-64 check rejects exactly it |
| Registers.ArmCoverage | include/bharmos/registers.h:14-129 | with SCTLR_EL1 laid out as in the Arm manual, every register layout sums to 64 and round-trips every 64-bit value |
| Registers.CurrentElLevelField | include/bharmos/registers.h:14-18 | CurrentEL.EL is bits [3:2] |
| Registers.EsrEl1Fields | include/bharmos/registers.h:21-26 | ESR_EL1 decodes to ISS = bits [24:0], IL = bit 25, EC = bits [31:26] and RES = bits [63:32] |
| Registers.WholeRegisterFields | include/bharmos/registers.h:29-36 | decoding ELR_EL1 or FAR_EL1 gives the raw value itself |
| Registers.SpsrEl1Flags | include/bharmos/registers.h:118-121 | SPSR_EL1 holds V, C, Z and N at bits 28, 29, 30 and 31 |
| Registers.VbarEl1Base | include/bharmos/registers.h:126-129 | VBAR_EL1.VBA is the raw value shifted right by 11 |
| Registers.VbarEl1Aligned | include/bharmos/registers.h:126-129 | a VBAR_EL1 value assembled with RES0 = 0 is 2048 times VBA mod 2^53, so it is a multiple of 2048 |
| Registers.SctlrEl1DeclaredHigh | include/bharmos/registers.h:60-98 | as declared, the fields from nTWE on start 17 bits above their offset among those declarations |
| Registers.SctlrEl1ArmHigh | include/bharmos/registers.h:60-98 | in the Arm layout, the same fields start 18 bits above that offset |
| Registers.SctlrEl1DeclaredNTwe | include/bharmos/registers.h:60-61 | as declared, nTWE is read from bit 17 |
| Registers.SctlrEl1DeclaredEnIA | include/bharmos/registers.h:83 | as declared, EnIA is read from bit 30 |
| Registers.SctlrEl1DeclaredTwedel | include/bharmos/registers.h:96 | as declared, TWEDEL is read from bits [48:45] |
| Registers.SctlrEl1DeclaredBit63 | include/bharmos/registers.h:39-98 | as declared, bit 63 of SCTLR_EL1 belongs to no field |
| Registers.SctlrEl1ArmNTwe | include/bharmos/registers.h:61 | in the Arm layout, nTWE is bit 18 |
| Registers.SctlrEl1ArmEnIA | include/bharmos/registers.h:83 | in the Arm layout, EnIA is bit 31 |
| Registers.SctlrEl1ArmTwedel | include/bharmos/registers.h:96 | in the Arm layout, TWEDEL is bits [49:46] |
| Registers.SctlrEl1ArmBit63 | include/bharmos/registers.h:97 | in the Arm layout, bit 63 belongs to the final RES0 field |
| Registers.SctlrEl1Misplaced | include/bharmos/registers.h:60-61 | every SCTLR_EL1 field before nTWE is where the Arm manual puts it; every field from nTWE on sits exactly one bit lower |
| Registers.SctlrEl1LosesBit63 | include/bharmos/registers.h:39-98 | decoding SCTLR_EL1 with only bit 63 set and re-assembling it gives 0 |
| Exceptions.GetCurrentEl | include/bharmos/exceptions.h:10-14 | the level is bits [3:2] of the raw CurrentEL value, always in 0..3, so the conversion to `u8` loses nothing |
| Exceptions.GetCurrentElExample | include/bharmos/exceptions.h:10-14 | a raw CurrentEL of 4 gives level 1 |
| Exceptions.GetCurrentElOfFields | include/bharmos/exceptions.h:13 | a CurrentEL image assembled from field values reads back the stored EL modulo 4, whatever the reserved fields hold |
| Exceptions.GetCurrentElAfterSetField | include/bharmos/exceptions.h:13 | changing any CurrentEL field other than EL leaves the level unchanged; setting EL to v gives level v mod 4 |
| Exceptions.GetCurrentElFromBits | include/bharmos/exceptions.h:13 | the level is bit 2 plus twice bit 3 |
| Exceptions.GetCurrentElDependsOnlyOnBits3To2 | include/bharmos/exceptions.h:13 | two raw values give the same level if and only if they agree on bits 2 and 3 |
| Kernel.Uart.constructor | kernel/kernel.c:2 | the UART data register is at 0x09000000 and nothing has been sent yet |
| Kernel.Kernel.constructor | kernel/kernel.c:2 | the kernel's UART pointer is set to the register at 0x09000000, with an empty output log; the pointer is a constant field and is never reassigned |
| Kernel.Kernel.PutChar | kernel/kernel.c:4-6 | storing a byte appends exactly that byte to the UART output and changes nothing else |
| Kernel.Kernel.Print | kernel/kernel.c:8-13 | printing a NUL-terminated buffer appends exactly its bytes before the first NUL, in order, to the UART output |
| Kernel.UntilNul | kernel/kernel.c:9 | the bytes before the first NUL: a prefix of the buffer that contains no NUL and is followed by one |
| Kernel.UntilNulOfPrefix | kernel/kernel.c:9-12 | if s[i] is NUL and no earlier byte is, the bytes before the first NUL are exactly s[..i]; with i = 0, printing emits nothing |
| Kernel.UntilNulOfTerminated | kernel/kernel.c:16 | a NUL-free string followed by its terminator reads back as itself, whatever follows the terminator |
| Kernel.Kernel.KMain | kernel/kernel.c:15-17 | the entry point appends exactly the banner bytes to the UART output |
| Kernel.BannerText | kernel/kernel.c:16 | the banner is the 15 ASCII bytes of "BHARMOS Kernel\n" |
| Kernel.BannerHasNoNul | kernel/kernel.c:16 | the banner contains no NUL |

## Left out

- `READ_SYS_REG` / `WRITE_SYS_REG` (include/bharmos/registers.h:133-137) are `mrs`/`msr` instructions. A register read is the `raw` parameter of the functions. A register write is not modelled.
- The ordering and barrier effects of `volatile` and `asm volatile`, and the privilege a register access needs. These are hardware concerns with no sequential behaviour to state.
- Exceptions.GetCurrentEl: the property that it writes no register holds trivially, because the model is a pure function of the value read. The read itself is not modelled.
- `FieldOverflow` and `UnexpectedHardwareState`, and the enumerated level type, are not in the code. The code truncates on assignment and returns the two-bit level as `u8`, and the model does the same.
- Volatile-store semantics of the UART register. The device is an append-only byte log; the address is kept only as a constant.
- Kernel.Kernel.Print: its contract states what is sent, not which bytes are read. Reading stops at the first NUL because the loop condition does.
- `char` and `u8` are both modelled as bytes 0..255, because `char` is unsigned on AArch64.
- The floating-point typedefs of `include/bharmos/sizes.h` and `include/kernel.h`. Only the integer widths are used.
- The architectural meaning of individual control bits. Only their positions are modelled.

## Findings

| source | as written | input that shows it | evidently intended | confidence | as-written member | corrected member |
|---|---|---|---|---|---|---|
| include/bharmos/registers.h:60-61 | `nTWE` is declared right after `nTWI`, with no reserved field for bit 17. The SCTLR_EL1 widths sum to 63, every field from `nTWE` on sits one bit lower than in the Arm manual, and bit 63 is covered by no field. | the SCTLR_EL1 value with only bit 63 set decodes and re-assembles to 0; nTWE is read from bit 17, EnIA from bit 30 and TWEDEL from bits [48:45] | a 1-bit reserved field between `nTWI` and `nTWE`, putting nTWE at bit 18, EnIA at bit 31 and TWEDEL at [49:46], with the widths summing to 64 | not executed | Registers.SctlrEl1LosesBit63 | Registers.ArmCoverage |
