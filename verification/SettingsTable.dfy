// The settings file's own table: its keys, in the order they are written.
module SettingsTable {
  import opened StateFile
  import opened Strings

  function Power(i: nat): Field {
    match i
    case 0 => Field("charging", Charging, Number(0))
    case 1 => Field("bypass_charging", Flag, Number(0))
    case 2 => Field("bypass_threshold", Threshold, Number(0))
    case _ => Field("touch", Touch, Number(-1))
  }

  function Picture(i: nat): Field {
    match i
    case 0 => Field("display_color", Colour, Number(-1))
    case 1 => Field("display_temp", Temperature, Number(-1))
    case 2 => Field("display_width", Any, Number(-1))
    case 3 => Field("display_height", Any, Number(-1))
    case _ => Field("display_density", Any, Number(-1))
  }

  function Panel(i: nat): Field {
    match i
    case 0 => Field("sunlight", Toggle, Number(-1))
    case 1 => Field("silky", Toggle, Number(-1))
    case 2 => Field("video", Toggle, Number(-1))
    case 3 => Field("dolby", Toggle, Number(-1))
    case _ => Field("expert_gamut", Any, Number(1))
  }

  function ExpertLow(i: nat): Field {
    match i
    case 0 => Field("expert_1", Any, Number(128))
    case 1 => Field("expert_2", Any, Number(128))
    case 2 => Field("expert_3", Any, Number(128))
    case _ => Field("expert_4", Any, Number(128))
  }

  function ExpertHigh(i: nat): Field {
    match i
    case 0 => Field("expert_5", Any, Number(0))
    case 1 => Field("expert_6", Any, Number(0))
    case 2 => Field("expert_7", Any, Number(50))
    case _ => Field("expert_8", Any, Number(255))
  }

  function Cores(i: nat): Field {
    match i
    case 0 => Field("perf", Any, Number(0))
    case 1 => Field("gpu_profile_cpu_isolated", Flag, Number(0))
    case 2 => Field("cpu_manual", Manual, Number(0))
    case _ => Field("cpu_online_mask", Mask, Number(255))
  }

  function Governors(i: nat): Field {
    match i
    case 0 => Field("cpu0", Words, Text(""))
    case 1 => Field("cpu4", Words, Text(""))
    case 2 => Field("cpu7", Words, Text(""))
    case 3 => Field("gpu", Words, Text(""))
    case _ => Field("io", Words, Text(""))
  }

  function Memory(i: nat): Field {
    match i
    case 0 => Field("brightness_prev", Any, Number(-1))
    case 1 => Field("zram_size_mb", Any, Number(8192))
    case 2 => Field("zram_algorithm", Words, Text("lz4"))
    case _ => Field("zram_swappiness", Any, Number(100))
  }

  function GpuSpeed(i: nat): Field {
    match i
    case 0 => Field("gpu_min_freq_mhz", Any, Number(260))
    case 1 => Field("gpu_max_freq_mhz", Any, Number(1300))
    case _ => Field("gpu_governor", Words, Text("simple_ondemand"))
  }

  function GpuMode(i: nat): Field {
    match i
    case 0 => Field("gpu_ged_boost", Any, Number(0))
    case 1 => Field("gpu_uncap", Any, Number(0))
    case _ => Field("gpu_power_policy", Words, Text("coarse_demand"))
  }

  function SmallRanges(i: nat): Field {
    match i
    case 0 => Field("cpu_min_freq0", Any, Number(-1))
    case 1 => Field("cpu_max_freq0", Any, Number(-1))
    case 2 => Field("cpu_min_freq4", Any, Number(-1))
    case _ => Field("cpu_max_freq4", Any, Number(-1))
  }

  function BigRange(i: nat): Field {
    match i
    case 0 => Field("cpu_min_freq7", Any, Number(-1))
    case 1 => Field("cpu_max_freq7", Any, Number(-1))
    case _ => Field("cpu_thermal_mode_prev", ThermalMode, Number(-1))
  }

  function FieldAt(i: nat): Field {
    if i < 4 then Power(i)
    else if i < 9 then Picture(i - 4)
    else if i < 14 then Panel(i - 9)
    else if i < 18 then ExpertLow(i - 14)
    else if i < 22 then ExpertHigh(i - 18)
    else if i < 26 then Cores(i - 22)
    else if i < 31 then Governors(i - 26)
    else if i < 35 then Memory(i - 31)
    else if i < 38 then GpuSpeed(i - 35)
    else if i < 41 then GpuMode(i - 38)
    else if i < 45 then SmallRanges(i - 41)
    else BigRange(i - 45)
  }

  const COUNT := 48

  const FIELDS: seq<Field> := seq(COUNT, i requires 0 <= i < COUNT => FieldAt(i))

  /**
   * The last character of a key, the middle one and the one a third of the way, as three bytes of
   * one number: enough to tell all the keys apart.
   */
  function Code(s: string): int {
    if s == [] then 0 else s[|s| - 1] as int * 0x10000 + s[|s| / 2] as int * 0x100 + s[|s| / 3] as int
  }

  /** Which key has a code, so that equal keys have equal places and no key is in the table twice. */
  function Place(c: int): nat {
    if c == 0x676761 then 0  // charging
    else if c == 0x676373 then 1  // bypass_charging
    else if c == 0x646873 then 2  // bypass_threshold
    else if c == 0x68756f then 3  // touch
    else if c == 0x72796c then 4  // display_color
    else if c == 0x70796c then 5  // display_temp
    else if c == 0x68796c then 6  // display_width
    else if c == 0x745f6c then 7  // display_height
    else if c == 0x795f61 then 8  // display_density
    else if c == 0x74696e then 9  // sunlight
    else if c == 0x796c69 then 10  // silky
    else if c == 0x6f6469 then 11  // video
    else if c == 0x796c6f then 12  // dolby
    else if c == 0x745f72 then 13  // expert_gamut
    else if c == 0x317270 then 14  // expert_1
    else if c == 0x327270 then 15  // expert_2
    else if c == 0x337270 then 16  // expert_3
    else if c == 0x347270 then 17  // expert_4
    else if c == 0x357270 then 18  // expert_5
    else if c == 0x367270 then 19  // expert_6
    else if c == 0x377270 then 20  // expert_7
    else if c == 0x387270 then 21  // expert_8
    else if c == 0x667265 then 22  // perf
    else if c == 0x646369 then 23  // gpu_profile_cpu_isolated
    else if c == 0x6c615f then 24  // cpu_manual
    else if c == 0x6b696e then 25  // cpu_online_mask
    else if c == 0x307570 then 26  // cpu0
    else if c == 0x347570 then 27  // cpu4
    else if c == 0x377570 then 28  // cpu7
    else if c == 0x757070 then 29  // gpu
    else if c == 0x6f6f69 then 30  // io
    else if c == 0x766574 then 31  // brightness_prev
    else if c == 0x62695f then 32  // zram_size_mb
    else if c == 0x6d675f then 33  // zram_algorithm
    else if c == 0x736173 then 34  // zram_swappiness
    else if c == 0x7a6669 then 35  // gpu_min_freq_mhz
    else if c == 0x7a6661 then 36  // gpu_max_freq_mhz
    else if c == 0x727667 then 37  // gpu_governor
    else if c == 0x746467 then 38  // gpu_ged_boost
    else if c == 0x70755f then 39  // gpu_uncap
    else if c == 0x79726f then 40  // gpu_power_policy
    else if c == 0x306e6d then 41  // cpu_min_freq0
    else if c == 0x30786d then 42  // cpu_max_freq0
    else if c == 0x346e6d then 43  // cpu_min_freq4
    else if c == 0x34786d then 44  // cpu_max_freq4
    else if c == 0x376e6d then 45  // cpu_min_freq7
    else if c == 0x37786d then 46  // cpu_max_freq7
    else if c == 0x766c72 then 47  // cpu_thermal_mode_prev
    else 48
  }

  lemma PowerUsable(i: nat)
    ensures IsPlain(Power(i).name) && Held(Power(i), Power(i).initial)
  {
    match i { case 0 => case 1 => case 2 => case _ => }
  }

  lemma PowerPlaced(i: nat)
    ensures i < 4 ==> Place(Code(Power(i).name)) == i
  {
    match i { case 0 => case 1 => case 2 => case _ => }
  }

  lemma PictureUsable(i: nat)
    ensures IsPlain(Picture(i).name) && Held(Picture(i), Picture(i).initial)
  {
    match i { case 0 => case 1 => case 2 => case 3 => case _ => }
  }

  lemma PicturePlaced(i: nat)
    ensures i < 5 ==> Place(Code(Picture(i).name)) == 4 + i
  {
    match i { case 0 => case 1 => case 2 => case 3 => case _ => }
  }

  lemma PanelUsable(i: nat)
    ensures IsPlain(Panel(i).name) && Held(Panel(i), Panel(i).initial)
  {
    match i { case 0 => case 1 => case 2 => case 3 => case _ => }
  }

  lemma PanelPlaced(i: nat)
    ensures i < 5 ==> Place(Code(Panel(i).name)) == 9 + i
  {
    match i { case 0 => case 1 => case 2 => case 3 => case _ => }
  }

  lemma ExpertLowUsable(i: nat)
    ensures IsPlain(ExpertLow(i).name) && Held(ExpertLow(i), ExpertLow(i).initial)
  {
    match i { case 0 => case 1 => case 2 => case _ => }
  }

  lemma ExpertLowPlaced(i: nat)
    ensures i < 4 ==> Place(Code(ExpertLow(i).name)) == 14 + i
  {
    match i { case 0 => case 1 => case 2 => case _ => }
  }

  lemma ExpertHighUsable(i: nat)
    ensures IsPlain(ExpertHigh(i).name) && Held(ExpertHigh(i), ExpertHigh(i).initial)
  {
    match i { case 0 => case 1 => case 2 => case _ => }
  }

  lemma ExpertHighPlaced(i: nat)
    ensures i < 4 ==> Place(Code(ExpertHigh(i).name)) == 18 + i
  {
    match i { case 0 => case 1 => case 2 => case _ => }
  }

  lemma CoresUsable(i: nat)
    ensures IsPlain(Cores(i).name) && Held(Cores(i), Cores(i).initial)
  {
    match i { case 0 => case 1 => case 2 => case _ => }
  }

  lemma CoresPlaced(i: nat)
    ensures i < 4 ==> Place(Code(Cores(i).name)) == 22 + i
  {
    match i { case 0 => case 1 => case 2 => case _ => }
  }

  lemma GovernorsUsable(i: nat)
    ensures IsPlain(Governors(i).name) && Held(Governors(i), Governors(i).initial)
  {
    match i { case 0 => case 1 => case 2 => case 3 => case _ => }
  }

  lemma GovernorsPlaced(i: nat)
    ensures i < 5 ==> Place(Code(Governors(i).name)) == 26 + i
  {
    match i { case 0 => case 1 => case 2 => case 3 => case _ => }
  }

  lemma MemoryUsable(i: nat)
    ensures IsPlain(Memory(i).name) && Held(Memory(i), Memory(i).initial)
  {
    match i { case 0 => case 1 => case 2 => case _ => }
  }

  lemma MemoryPlaced(i: nat)
    ensures i < 4 ==> Place(Code(Memory(i).name)) == 31 + i
  {
    match i { case 0 => case 1 => case 2 => case _ => }
  }

  lemma GpuSpeedUsable(i: nat)
    ensures IsPlain(GpuSpeed(i).name) && Held(GpuSpeed(i), GpuSpeed(i).initial)
  {
    match i { case 0 => case 1 => case _ => }
  }

  lemma GpuSpeedPlaced(i: nat)
    ensures i < 3 ==> Place(Code(GpuSpeed(i).name)) == 35 + i
  {
    match i { case 0 => case 1 => case _ => }
  }

  lemma GpuModeUsable(i: nat)
    ensures IsPlain(GpuMode(i).name) && Held(GpuMode(i), GpuMode(i).initial)
  {
    match i { case 0 => case 1 => case _ => }
  }

  lemma GpuModePlaced(i: nat)
    ensures i < 3 ==> Place(Code(GpuMode(i).name)) == 38 + i
  {
    match i { case 0 => case 1 => case _ => }
  }

  lemma SmallRangesUsable(i: nat)
    ensures IsPlain(SmallRanges(i).name) && Held(SmallRanges(i), SmallRanges(i).initial)
  {
    match i { case 0 => case 1 => case 2 => case _ => }
  }

  lemma SmallRangesPlaced(i: nat)
    ensures i < 4 ==> Place(Code(SmallRanges(i).name)) == 41 + i
  {
    match i { case 0 => case 1 => case 2 => case _ => }
  }

  lemma BigRangeUsable(i: nat)
    ensures IsPlain(BigRange(i).name) && Held(BigRange(i), BigRange(i).initial)
  {
    match i { case 0 => case 1 => case _ => }
  }

  lemma BigRangePlaced(i: nat)
    ensures i < 3 ==> Place(Code(BigRange(i).name)) == 45 + i
  {
    match i { case 0 => case 1 => case _ => }
  }

  lemma Table(i: nat)
    requires i < COUNT
    ensures IsPlain(FieldAt(i).name) && Held(FieldAt(i), FieldAt(i).initial) && Place(Code(FieldAt(i).name)) == i
  {
    hide IsPlain, Held, Place, Code, Power, Picture, Panel, ExpertLow, ExpertHigh,
      Cores, Governors, Memory, GpuSpeed, GpuMode, SmallRanges, BigRange;
    if i < 4 {
      PowerUsable(i);
      PowerPlaced(i);
    } else if i < 9 {
      PictureUsable(i - 4);
      PicturePlaced(i - 4);
    } else if i < 14 {
      PanelUsable(i - 9);
      PanelPlaced(i - 9);
    } else if i < 18 {
      ExpertLowUsable(i - 14);
      ExpertLowPlaced(i - 14);
    } else if i < 22 {
      ExpertHighUsable(i - 18);
      ExpertHighPlaced(i - 18);
    } else if i < 26 {
      CoresUsable(i - 22);
      CoresPlaced(i - 22);
    } else if i < 31 {
      GovernorsUsable(i - 26);
      GovernorsPlaced(i - 26);
    } else if i < 35 {
      MemoryUsable(i - 31);
      MemoryPlaced(i - 31);
    } else if i < 38 {
      GpuSpeedUsable(i - 35);
      GpuSpeedPlaced(i - 35);
    } else if i < 41 {
      GpuModeUsable(i - 38);
      GpuModePlaced(i - 38);
    } else if i < 45 {
      SmallRangesUsable(i - 41);
      SmallRangesPlaced(i - 41);
    } else {
      BigRangeUsable(i - 45);
      BigRangePlaced(i - 45);
    }
  }

  lemma TableIsWellFormed()
    ensures WellFormed(FIELDS)
  {
    hide FieldAt, IsPlain, Held, Place, Code;
    forall i | 0 <= i < COUNT
      ensures IsPlain(FIELDS[i].name) && Held(FIELDS[i], FIELDS[i].initial)
    {
      Table(i);
    }
    forall i, j | 0 <= i < j < COUNT
      ensures FIELDS[i].name != FIELDS[j].name
    {
      Table(i);
      Table(j);
    }
  }

  /**
   * Over all 48 settings and every text: what is read is normal, printing it and reading it again
   * changes nothing, and any normal state survives printing and reading.
   */
  lemma SettingsRoundTrip(text: string, s: State)
    requires AllNormal(FIELDS, s)
    ensures Parse(FIELDS, Print(FIELDS, Parse(FIELDS, text))) == Parse(FIELDS, text)
    ensures Parse(FIELDS, Print(FIELDS, s)) == s
  {
    hide Parse, Print, WellFormed;
    TableIsWellFormed();
    ParsedIsNormal(FIELDS, text);
    PrintedIsRead(FIELDS, Parse(FIELDS, text));
    PrintedIsRead(FIELDS, s);
  }
}
