/**
 * The SSD1306 power-up command table and the two bytes of it that the driver
 * patches for the panel's geometry before handing it to the display framework.
 */
module InitSequence {
  import opened Wrappers
  import opened CommandRecords

  /** The command table as shipped (page 19 of the UG-2864HSWEG01 user guide). */
  const Template: seq<Byte> := [
    0xAE, 0x00,        // display off
    0x20, 0x01, 0x00,  // horizontal memory addressing
    0x81, 0x01, 0xCF,  // contrast
    0xA1, 0x00,        // column 127 is segment 0
    0xA6, 0x00,        // normal display
    0xC8, 0x00,        // COM scan direction
    0xA8, 0x01, 0x3F,  // mux ratio 1/64
    0xD5, 0x01, 0x80,  // clock divide ratio
    0xD9, 0x01, 0xF1,  // pre-charge period
    0xDA, 0x01, 0x12,  // COM pins configuration
    0xDB, 0x01, 0x40,  // VCOMH deselect level
    0x8D, 0x01, 0x14,  // charge pump on
    0xAF, 0x00         // display on
  ]

  /** The same table read as commands. */
  const TemplateCommands: seq<Command> := [
    Command(0xAE, []),
    Command(0x20, [0x00]),
    Command(0x81, [0xCF]),
    Command(0xA1, []),
    Command(0xA6, []),
    Command(0xC8, []),
    Command(0xA8, [0x3F]),
    Command(0xD5, [0x80]),
    Command(0xD9, [0xF1]),
    Command(0xDA, [0x12]),
    Command(0xDB, [0x40]),
    Command(0x8D, [0x14]),
    Command(0xAF, [])
  ]

  /** The opcodes of the template, in the order the controller receives them. */
  const TemplateOpcodes: seq<Byte> :=
    [0xAE, 0x20, 0x81, 0xA1, 0xA6, 0xC8, 0xA8, 0xD5, 0xD9, 0xDA, 0xDB, 0x8D, 0xAF]

  /** Where each record of the template starts; the last entry is the table's length. */
  const RecordStarts: seq<nat> := [0, 2, 5, 8, 10, 12, 14, 17, 20, 23, 26, 29, 32, 34]

  /** Offset of the mux-ratio payload byte (record 0xA8). */
  const MuxRatioIndex: nat := 16
  /** Offset of the COM-configuration payload byte (record 0xDA). */
  const ComConfigIndex: nat := 25
  /** COM configuration the driver writes for 32-pixel-high panels. */
  const ShortPanelComConfig: Byte := 0x02

  /** Writing a value outside 0..255 into the byte buffer fails. */
  datatype InitError = MuxRatioOutOfRange(value: int)

  /** The row count the controller drives: the width when the panel is turned a quarter turn. */
  function EffectiveHeight(width: int, height: int, rotation: Option<int>): int {
    if rotation.Some? && rotation.value % 180 != 0 then width else height
  }

  /**
   * The table the driver builds: the template with the mux ratio set to the
   * effective height minus one and, for a 32-pixel-high panel (height before
   * rotation), the short-panel COM configuration.
   */
  function Patched(width: int, height: int, rotation: Option<int>): (r: Result<seq<Byte>, InitError>)
    ensures var mux := EffectiveHeight(width, height, rotation) - 1;
            (r.Err? <==> !(0 <= mux < 256)) &&
            (r.Err? ==> r.error == MuxRatioOutOfRange(mux))
    ensures r.Ok? ==>
              |r.value| == |Template| == 34 &&
              r.value[MuxRatioIndex] as int == EffectiveHeight(width, height, rotation) - 1 &&
              (r.value[ComConfigIndex] == ShortPanelComConfig <==> height == 32) &&
              (height != 32 ==> r.value[ComConfigIndex] == 0x12) &&
              forall i :: 0 <= i < |Template| && i != MuxRatioIndex && i != ComConfigIndex ==>
                r.value[i] == Template[i]
  {
    var mux := EffectiveHeight(width, height, rotation) - 1;
    if !(0 <= mux < 256) then Err(MuxRatioOutOfRange(mux))
    else
      var s := Template[MuxRatioIndex := mux as Byte];
      Ok(if height == 32 then s[ComConfigIndex := ShortPanelComConfig] else s)
  }

  /**
   * Copies the template into a fresh buffer and patches it in place, failing
   * at the mux-ratio write when that value does not fit in a byte.
   */
  method BuildInitSequence(width: int, height: int, rotation: Option<int>)
      returns (r: Result<array<Byte>, InitError>)
    ensures Patched(width, height, rotation).Err? ==> r == Err(Patched(width, height, rotation).error)
    ensures Patched(width, height, rotation).Ok? ==>
              r.Ok? && fresh(r.value) && r.value[..] == Patched(width, height, rotation).value
  {
    var buffer := new Byte[|Template|](i requires 0 <= i < |Template| => Template[i]);
    var mux := EffectiveHeight(width, height, rotation) - 1;
    if !(0 <= mux < 256) {
      return Err(MuxRatioOutOfRange(mux));
    }
    buffer[MuxRatioIndex] := mux as Byte;
    if height == 32 {
      buffer[ComConfigIndex] := ShortPanelComConfig;
    }
    r := Ok(buffer);
  }

  /**
   * The template is thirteen well-formed records with opcodes AE 20 81 A1 A6
   * C8 A8 D5 D9 DA DB 8D AF, and the two patched offsets are the payload
   * bytes of the A8 and DA records.
   */
  lemma TemplateLayout()
    ensures Decode(Template) == Some(TemplateCommands)
    ensures Opcodes(TemplateCommands) == TemplateOpcodes
    ensures Locate(TemplateCommands, MuxRatioIndex) == Some((6, 0))
    ensures Locate(TemplateCommands, ComConfigIndex) == Some((9, 0))
    ensures Layout(TemplateCommands, RecordStarts)
  {
    TemplateRecords();
    EncodeByLayout(TemplateCommands, RecordStarts, Template);
    DecodeEncode(TemplateCommands);
    TemplateOffsets();
  }

  /** Every record of the template, at its start offset. */
  lemma TemplateRecords()
    ensures WellFormed(TemplateCommands) && Layout(TemplateCommands, RecordStarts)
    ensures |Template| == RecordStarts[|TemplateCommands|]
    ensures forall m :: 0 <= m < |TemplateCommands| ==> RecordAt(TemplateCommands, RecordStarts, Template, m)
    ensures Opcodes(TemplateCommands) == TemplateOpcodes
  {
    var cs := TemplateCommands;
    forall m | 0 <= m < |cs|
      ensures |cs[m].payload| < 256 && cs[m].opcode == TemplateOpcodes[m]
      ensures NextStart(cs, RecordStarts, m) && RecordAt(cs, RecordStarts, Template, m)
    {
      TemplateRecord(m);
    }
  }

  /** The two patched offsets are the payload bytes of the A8 and DA records. */
  lemma TemplateOffsets()
    requires Layout(TemplateCommands, RecordStarts)
    ensures Locate(TemplateCommands, MuxRatioIndex) == Some((6, 0))
    ensures Locate(TemplateCommands, ComConfigIndex) == Some((9, 0))
  {
    assert RecordStarts[6] + 2 == MuxRatioIndex && RecordStarts[9] + 2 == ComConfigIndex;
    assert |TemplateCommands[6].payload| == |TemplateCommands[9].payload| == 1;
    LocateByLayout(TemplateCommands, RecordStarts, 6, 0);
    LocateByLayout(TemplateCommands, RecordStarts, 9, 0);
  }

  /** Record k of the template occupies Template[RecordStarts[k]..RecordStarts[k + 1]]. */
  lemma TemplateRecord(k: nat)
    requires k < |TemplateCommands|
    ensures |TemplateCommands[k].payload| < 256
    ensures TemplateCommands[k].opcode == TemplateOpcodes[k]
    ensures NextStart(TemplateCommands, RecordStarts, k)
    ensures RecordAt(TemplateCommands, RecordStarts, Template, k)
  {
    if k < 5 {
      TemplateRecordsAeToA6(k);
    } else if k < 9 {
      TemplateRecordsC8ToD9(k);
    } else {
      TemplateRecordsDaToAf(k);
    }
  }

  /** Records AE, 20, 81, A1, A6 of the template, byte by byte. */
  lemma TemplateRecordsAeToA6(k: nat)
    requires 0 <= k < 5
    ensures |TemplateCommands[k].payload| < 256
    ensures TemplateCommands[k].opcode == TemplateOpcodes[k]
    ensures NextStart(TemplateCommands, RecordStarts, k)
    ensures RecordAt(TemplateCommands, RecordStarts, Template, k)
  {
    if k == 0 {
      assert Template[0] == 0xAE && Template[1] == 0x00;
    } else if k == 1 {
      assert Template[2] == 0x20 && Template[3] == 0x01 && Template[4] == 0x00;
    } else if k == 2 {
      assert Template[5] == 0x81 && Template[6] == 0x01 && Template[7] == 0xCF;
    } else if k == 3 {
      assert Template[8] == 0xA1 && Template[9] == 0x00;
    } else {
      assert Template[10] == 0xA6 && Template[11] == 0x00;
    }
  }

  /** Records C8, A8, D5, D9 of the template, byte by byte. */
  lemma TemplateRecordsC8ToD9(k: nat)
    requires 5 <= k < 9
    ensures |TemplateCommands[k].payload| < 256
    ensures TemplateCommands[k].opcode == TemplateOpcodes[k]
    ensures NextStart(TemplateCommands, RecordStarts, k)
    ensures RecordAt(TemplateCommands, RecordStarts, Template, k)
  {
    if k == 5 {
      assert Template[12] == 0xC8 && Template[13] == 0x00;
    } else if k == 6 {
      assert Template[14] == 0xA8 && Template[15] == 0x01 && Template[16] == 0x3F;
    } else if k == 7 {
      assert Template[17] == 0xD5 && Template[18] == 0x01 && Template[19] == 0x80;
    } else {
      assert Template[20] == 0xD9 && Template[21] == 0x01 && Template[22] == 0xF1;
    }
  }

  /** Records DA, DB, 8D, AF of the template, byte by byte. */
  lemma TemplateRecordsDaToAf(k: nat)
    requires 9 <= k < 13
    ensures |TemplateCommands[k].payload| < 256
    ensures TemplateCommands[k].opcode == TemplateOpcodes[k]
    ensures NextStart(TemplateCommands, RecordStarts, k)
    ensures RecordAt(TemplateCommands, RecordStarts, Template, k)
  {
    if k == 9 {
      assert Template[23] == 0xDA && Template[24] == 0x01 && Template[25] == 0x12;
    } else if k == 10 {
      assert Template[26] == 0xDB && Template[27] == 0x01 && Template[28] == 0x40;
    } else if k == 11 {
      assert Template[29] == 0x8D && Template[30] == 0x01 && Template[31] == 0x14;
    } else {
      assert Template[32] == 0xAF && Template[33] == 0x00;
    }
  }

  /**
   * Whatever the geometry, a successfully patched table still decodes as the
   * template's thirteen records in the same order with the same payload
   * lengths; only the payloads of the A8 and DA records can differ, and they
   * hold the mux ratio and the COM configuration.
   */
  lemma PatchedLayout(width: int, height: int, rotation: Option<int>)
    requires Patched(width, height, rotation).Ok?
    ensures var p := Patched(width, height, rotation).value;
            var r := Decode(p);
            r.Some? && SameLayout(r.value, TemplateCommands) &&
            Opcodes(r.value) == TemplateOpcodes &&
            r.value[6].payload == [p[MuxRatioIndex]] &&
            r.value[9].payload == [p[ComConfigIndex]] &&
            forall m :: 0 <= m < |TemplateCommands| && m != 6 && m != 9 ==> r.value[m] == TemplateCommands[m]
  {
    var p := Patched(width, height, rotation).value;
    PatchedIsTwoWrites(width, height, rotation);
    WritesKeepLayout(p[MuxRatioIndex], p[ComConfigIndex]);
  }

  /** Any values written at the two patched offsets leave the template's record structure intact. */
  lemma WritesKeepLayout(mux: Byte, com: Byte)
    ensures var r := Decode(Template[MuxRatioIndex := mux][ComConfigIndex := com]);
            r.Some? && SameLayout(r.value, TemplateCommands) &&
            Opcodes(r.value) == TemplateOpcodes &&
            r.value[6].payload == [mux] && r.value[9].payload == [com] &&
            forall m :: 0 <= m < |TemplateCommands| && m != 6 && m != 9 ==> r.value[m] == TemplateCommands[m]
  {
    TemplateLayout();
    assert RecordStarts[6] + 2 == MuxRatioIndex && RecordStarts[9] + 2 == ComConfigIndex;
    assert |TemplateCommands[6].payload| == 1 && |TemplateCommands[9].payload| == 1;
    PatchTwoPayloads(Template, TemplateCommands, RecordStarts, 6, 9, mux, com);
    SameLayoutOpcodes(Decode(Template[MuxRatioIndex := mux][ComConfigIndex := com]).value, TemplateCommands);
  }

  /** The patched table is the template with its two patched bytes written over. */
  lemma PatchedIsTwoWrites(width: int, height: int, rotation: Option<int>)
    requires Patched(width, height, rotation).Ok?
    ensures var p := Patched(width, height, rotation).value;
            p == Template[MuxRatioIndex := p[MuxRatioIndex]][ComConfigIndex := p[ComConfigIndex]]
  {
  }
}
