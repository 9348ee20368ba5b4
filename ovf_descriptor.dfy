/**
 * The OVF descriptor of an exported VM: `createDiskSection` and `createOvf` of
 * packages/xo-vmdk-to-vhd/src/ova-generate.js. The descriptor is a DMTF Open
 * Virtualization Format envelope written as text.
 */
module OvfDescriptor {
  import opened Wrappers
  import opened Text
  import opened Bytes

  /**
   * One disk of the export, the object the caller passes in `disks`. Its
   * documented fields are `name`, `capacityMB` and `getStream`; the descriptor
   * also reads `fileName`, which callers need not set (then it is `undefined`).
   * `getStream()` returns a fresh stream over the same source image every time it
   * is called, so the model keeps the image itself. `fileSize` is the field the
   * archive writer assigns once it has measured the converted disk.
   */
  class Disk {
    const name: string
    const capacityMB: nat
    const fileName: Option<string>
    const image: seq<byte>
    var fileSize: Option<nat>

    constructor (name: string, capacityMB: nat, fileName: Option<string>, image: seq<byte>)
      ensures this.name == name && this.capacityMB == capacityMB
      ensures this.fileName == fileName && this.image == image
      ensures fileSize == None
    {
      this.name := name;
      this.capacityMB := capacityMB;
      this.fileName := fileName;
      this.image := image;
      fileSize := None;
    }

    /** `disk.getStream()`: a new stream over the disk's source image. */
    method GetStream() returns (stream: seq<byte>)
      ensures stream == image
    {
      stream := image;
    }
  }

  /** The text `${disk.fileName}` produces: the file name, or "undefined" when unset. */
  function Href(d: Disk): string
  {
    match d.fileName
    case Some(f) => f
    case None => "undefined"
  }

  /** The file identifier of the disk at 0-based index i. */
  function FileId(i: nat): string
  {
    "file" + NatToString(i + 1)
  }

  /** The disk identifier of the disk at 0-based index i. */
  function DiskId(i: nat): string
  {
    "vmdisk" + NatToString(i + 1)
  }

  function FileReferenceParts(d: Disk, i: nat): seq<string>
  {
    ["    <File ", Attribute("ovf:href", Href(d)), " ", Attribute("ovf:id", FileId(i)), "/>"]
  }

  /** The `<File>` reference of the disk at index i. */
  function FileReference(d: Disk, i: nat): string
  {
    Concat(FileReferenceParts(d, i))
  }

  function DiskRecordParts(d: Disk, i: nat): seq<string>
  {
    ["    <Disk ", Attribute("ovf:capacity", NatToString(d.capacityMB)),
     " ", Attribute("ovf:capacityAllocationUnits", "byte * 2^20"),
     " ", Attribute("ovf:diskId", DiskId(i)),
     " ", Attribute("ovf:fileRef", FileId(i)), " />"]
  }

  /** The `<Disk>` record of the disk at index i. */
  function DiskRecord(d: Disk, i: nat): string
  {
    Concat(DiskRecordParts(d, i))
  }

  function DiskItemParts(i: nat): seq<string>
  {
    var sep := "\n        ";
    ["\n      <Item>", sep,
     Element("rasd:AddressOnParent", NatToString(i)), sep,
     Element("rasd:ElementName", "Hard Disk " + NatToString(i + 1)), sep,
     Element("rasd:HostResource", "ovf:/disk/" + DiskId(i)), sep,
     Element("rasd:InstanceID", DiskId(i)), sep,
     Element("rasd:Parent", "4"), sep,
     Element("rasd:ResourceType", "17"), "\n      </Item>\n    "]
  }

  /** The hardware `<Item>` of the disk at index i. */
  function DiskItem(i: nat): string
  {
    Concat(DiskItemParts(i))
  }

  function FileReferences(disks: seq<Disk>): (r: seq<string>)
    ensures |r| == |disks|
  {
    seq(|disks|, i requires 0 <= i < |disks| => FileReference(disks[i], i))
  }

  function DiskRecords(disks: seq<Disk>): (r: seq<string>)
    ensures |r| == |disks|
  {
    seq(|disks|, i requires 0 <= i < |disks| => DiskRecord(disks[i], i))
  }

  function DiskItems(n: nat): (r: seq<string>)
    ensures |r| == n
  {
    seq(n, i requires 0 <= i < n => DiskItem(i))
  }

  /** The three fragments `createDiskSection` returns. */
  datatype DiskSection = DiskSection(fileReferences: string, diskFragments: string, diskItems: string)

  /** What `createDiskSection(disks)` returns: each list of per-disk pieces joined with newlines. */
  function DiskSectionOf(disks: seq<Disk>): DiskSection
  {
    DiskSection(
      Join(FileReferences(disks), '\n'),
      Join(DiskRecords(disks), '\n'),
      Join(DiskItems(|disks|), '\n'))
  }

  /** Appending a disk appends its file reference, numbered by its position. */
  lemma FileReferencesSnoc(disks: seq<Disk>, d: Disk)
    ensures FileReferences(disks + [d]) == FileReferences(disks) + [FileReference(d, |disks|)]
  {
  }

  /** Appending a disk appends its disk record, numbered by its position. */
  lemma DiskRecordsSnoc(disks: seq<Disk>, d: Disk)
    ensures DiskRecords(disks + [d]) == DiskRecords(disks) + [DiskRecord(d, |disks|)]
  {
  }

  /** One more disk adds one more hardware item, numbered by its position. */
  lemma DiskItemsSnoc(n: nat)
    ensures DiskItems(n + 1) == DiskItems(n) + [DiskItem(n)]
  {
  }

  /**
   * `createDiskSection`: one pass over the disks by index, pushing one piece onto
   * each of three lists, which are joined with newlines at the end.
   */
  method CreateDiskSection(disks: seq<Disk>) returns (section: DiskSection)
    ensures section == DiskSectionOf(disks)
  {
    var fileReferences: seq<string> := [];
    var diskFragments: seq<string> := [];
    var diskItems: seq<string> := [];
    for i := 0 to |disks|
      invariant fileReferences == FileReferences(disks[..i])
      invariant diskFragments == DiskRecords(disks[..i])
      invariant diskItems == DiskItems(i)
    {
      var disk := disks[i];
      FileReferencesSnoc(disks[..i], disk);
      DiskRecordsSnoc(disks[..i], disk);
      DiskItemsSnoc(i);
      assert disks[..i] + [disk] == disks[..i + 1];
      fileReferences := fileReferences + [FileReference(disk, i)];
      diskFragments := diskFragments + [DiskRecord(disk, i)];
      diskItems := diskItems + [DiskItem(i)];
    }
    assert disks[..|disks|] == disks;
    section := DiskSection(Join(fileReferences, '\n'), Join(diskFragments, '\n'), Join(diskItems, '\n'));
  }

  /** With no disks the three fragments are empty. */
  lemma DiskSectionEmpty()
    ensures DiskSectionOf([]) == DiskSection("", "", "")
  {
  }

  /**
   * Adding a disk at the end adds its three pieces at the end of the three
   * fragments, after a newline: the fragments list the disks in input order.
   */
  lemma DiskSectionSnoc(disks: seq<Disk>, d: Disk)
    requires |disks| > 0
    ensures var before, after := DiskSectionOf(disks), DiskSectionOf(disks + [d]);
      && after.fileReferences == before.fileReferences + "\n" + FileReference(d, |disks|)
      && after.diskFragments == before.diskFragments + "\n" + DiskRecord(d, |disks|)
      && after.diskItems == before.diskItems + "\n" + DiskItem(|disks|)
  {
    var n := |disks|;
    FileReferencesSnoc(disks, d);
    DiskRecordsSnoc(disks, d);
    DiskItemsSnoc(n);
    JoinSnoc(FileReferences(disks), FileReference(d, n), '\n');
    JoinSnoc(DiskRecords(disks), DiskRecord(d, n), '\n');
    JoinSnoc(DiskItems(n), DiskItem(n), '\n');
  }

  predicate OneLine(s: string)
  {
    '\n' !in s
  }

  lemma NumberIsOneLine(n: nat)
    ensures OneLine(NatToString(n))
  {
    var s := NatToString(n);
    forall k | 0 <= k < |s| ensures s[k] != '\n' {
      assert s[k] in Digits;
    }
  }

  lemma AttributeOneLine(name: string, value: string)
    requires OneLine(name) && OneLine(value)
    ensures OneLine(Attribute(name, value))
  {
  }

  /** A file reference is one line unless the file name breaks it. */
  lemma FileReferenceOneLine(d: Disk, i: nat)
    requires OneLine(Href(d))
    ensures OneLine(FileReference(d, i))
  {
    var parts := FileReferenceParts(d, i);
    assert forall k :: 0 <= k < |parts| ==> '\n' !in parts[k] by {
      NumberIsOneLine(i + 1);
      AttributeOneLine("ovf:href", Href(d));
      AttributeOneLine("ovf:id", FileId(i));
    }
    ConcatWithout(parts, '\n');
  }

  /** A disk record is always one line. */
  lemma DiskRecordOneLine(d: Disk, i: nat)
    ensures OneLine(DiskRecord(d, i))
  {
    var parts := DiskRecordParts(d, i);
    assert forall k :: 0 <= k < |parts| ==> '\n' !in parts[k] by {
      NumberIsOneLine(i + 1);
      NumberIsOneLine(d.capacityMB);
      AttributeOneLine("ovf:capacity", NatToString(d.capacityMB));
      AttributeOneLine("ovf:capacityAllocationUnits", "byte * 2^20");
      AttributeOneLine("ovf:diskId", DiskId(i));
      AttributeOneLine("ovf:fileRef", FileId(i));
    }
    ConcatWithout(parts, '\n');
  }

  /**
   * When no file name holds a newline, the file references and the disk records
   * split back, line by line, into exactly one piece per disk, in input order.
   */
  lemma DiskSectionLines(disks: seq<Disk>)
    requires |disks| > 0
    requires forall i :: 0 <= i < |disks| ==> OneLine(Href(disks[i]))
    ensures Split(DiskSectionOf(disks).fileReferences, '\n') == FileReferences(disks)
    ensures Split(DiskSectionOf(disks).diskFragments, '\n') == DiskRecords(disks)
  {
    forall i | 0 <= i < |disks|
      ensures OneLine(FileReferences(disks)[i]) && OneLine(DiskRecords(disks)[i])
    {
      FileReferenceOneLine(disks[i], i);
      DiskRecordOneLine(disks[i], i);
    }
    SplitJoin(FileReferences(disks), '\n');
    SplitJoin(DiskRecords(disks), '\n');
  }

  /** The file reference of the disk at index i names its file and carries `file{i+1}`. */
  lemma FileReferenceFields(d: Disk, i: nat)
    ensures Contains(FileReference(d, i), Attribute("ovf:href", Href(d)))
    ensures Contains(FileReference(d, i), Attribute("ovf:id", FileId(i)))
  {
    var parts := FileReferenceParts(d, i);
    PartContained(parts, 1, Attribute("ovf:href", Href(d)));
    PartContained(parts, 3, Attribute("ovf:id", FileId(i)));
  }

  /**
   * The disk record of the disk at index i gives its capacity in units of 2^20
   * bytes, its identifier `vmdisk{i+1}` and the file `file{i+1}` it is stored in.
   */
  lemma DiskRecordFields(d: Disk, i: nat)
    ensures Contains(DiskRecord(d, i), Attribute("ovf:capacity", NatToString(d.capacityMB)))
    ensures Contains(DiskRecord(d, i), Attribute("ovf:capacityAllocationUnits", "byte * 2^20"))
    ensures Contains(DiskRecord(d, i), Attribute("ovf:diskId", DiskId(i)))
    ensures Contains(DiskRecord(d, i), Attribute("ovf:fileRef", FileId(i)))
  {
    var parts := DiskRecordParts(d, i);
    PartContained(parts, 1, Attribute("ovf:capacity", NatToString(d.capacityMB)));
    PartContained(parts, 3, Attribute("ovf:capacityAllocationUnits", "byte * 2^20"));
    PartContained(parts, 5, Attribute("ovf:diskId", DiskId(i)));
    PartContained(parts, 7, Attribute("ovf:fileRef", FileId(i)));
  }

  /**
   * The hardware item of the disk at index i sits at address i on its parent,
   * is called `Hard Disk {i+1}`, points at disk `vmdisk{i+1}` and has that
   * identifier as its instance id.
   */
  lemma DiskItemFields(i: nat)
    ensures Contains(DiskItem(i), Element("rasd:AddressOnParent", NatToString(i)))
    ensures Contains(DiskItem(i), Element("rasd:ElementName", "Hard Disk " + NatToString(i + 1)))
    ensures Contains(DiskItem(i), Element("rasd:HostResource", "ovf:/disk/" + DiskId(i)))
    ensures Contains(DiskItem(i), Element("rasd:InstanceID", DiskId(i)))
  {
    var parts := DiskItemParts(i);
    assert Contains(Concat(parts), Element("rasd:AddressOnParent", NatToString(i))) by {
      PartContained(parts, 2, Element("rasd:AddressOnParent", NatToString(i)));
    }
    assert Contains(Concat(parts), Element("rasd:ElementName", "Hard Disk " + NatToString(i + 1))) by {
      PartContained(parts, 4, Element("rasd:ElementName", "Hard Disk " + NatToString(i + 1)));
    }
    assert Contains(Concat(parts), Element("rasd:HostResource", "ovf:/disk/" + DiskId(i))) by {
      PartContained(parts, 6, Element("rasd:HostResource", "ovf:/disk/" + DiskId(i)));
    }
    assert Contains(Concat(parts), Element("rasd:InstanceID", DiskId(i))) by {
      PartContained(parts, 8, Element("rasd:InstanceID", DiskId(i)));
    }
  }

  /** The hardware item of every disk hangs off the IDE controller (instance 4) and is a disk drive (type 17). */
  lemma DiskItemAttachment(i: nat)
    ensures Contains(DiskItem(i), Element("rasd:Parent", "4"))
    ensures Contains(DiskItem(i), Element("rasd:ResourceType", "17"))
  {
    var parts := DiskItemParts(i);
    PartContained(parts, 10, Element("rasd:Parent", "4"));
    PartContained(parts, 12, Element("rasd:ResourceType", "17"));
  }

  /** Disks at different indexes never share a file identifier or a disk identifier. */
  lemma IdentifiersDistinct(i: nat, j: nat)
    requires i != j
    ensures FileId(i) != FileId(j)
    ensures DiskId(i) != DiskId(j)
  {
    NatToStringInjective(i + 1, j + 1);
    assert FileId(i)[4..] == NatToString(i + 1) && FileId(j)[4..] == NatToString(j + 1);
    assert DiskId(i)[6..] == NatToString(i + 1) && DiskId(j)[6..] == NatToString(j + 1);
  }

  // The envelope of `createOvf`, section by section.

  /**
   * The fixed stretches of the envelope text, between the places where values
   * go. The section functions below are stated for any such texts; `OvfTexts`
   * holds the ones `createOvf` writes.
   */
  datatype EnvelopeTexts = EnvelopeTexts(
    opening: string, diskSectionInfo: string, networkBody: string, systemInfo: string,
    osInfo: string, hardwareInfo: string, systemHead: string, systemTail: string,
    cpuItem: string, memoryHead: string, memoryMiddle: string, ideControllerItem: string,
    videoCardItem: string, ethernetItem: string, annotationInfo: string)

  const OvfNamespace := "http://schemas.dmtf.org/" + "ovf/envelope/1"
  const CimSchema := "http://schemas.dmtf.org/" + "wbem/wscim/1/cim-schema/2/"

  /** The XML declaration, the generator comment and the opening envelope tag with its namespaces. */
  const Opening :=
    "<?xml " + Attribute("version", "1.0") + " " + Attribute("encoding", "UTF-8") + "?>"
    + "\n" + "<!--Generated by Xen Orchestra-->"
    + "\n" + "<ovf:Envelope " + Attribute("xmlns", OvfNamespace) + " " + Attribute("xmlns:ovf", OvfNamespace)
    + Indent(4) + Attribute("xmlns:rasd", CimSchema + "CIM_ResourceAllocationSettingData")
    + Indent(4) + Attribute("xmlns:vssd", CimSchema + "CIM_VirtualSystemSettingData") + ">"
    + Indent(2)

  /** The one logical network, `LAN`. */
  const NetworkBody :=
    Field(4, "Info", "The list of logical networks")
    + Indent(4) + "<Network " + Attribute("ovf:name", "LAN") + ">"
    + Field(6, "Description", "The LAN network")
    + Indent(4) + "</Network>" + Indent(2)

  const SystemHead :=
    Field(8, "vssd:ElementName", "Virtual Hardware Family")
    + Field(8, "vssd:InstanceID", "0")
    + Indent(8)

  const SystemTail := Field(8, "vssd:VirtualSystemType", "vmx-11") + Indent(6)

  /** The processor: one virtual CPU. */
  const CpuItem :=
    "<Item>"
    + Field(8, "rasd:AllocationUnits", "hertz * 10^6")
    + Field(8, "rasd:Description", "Number of Virtual CPUs")
    + Field(8, "rasd:ElementName", "1 virtual CPU(s)")
    + Field(8, "rasd:InstanceID", "1")
    + Field(8, "rasd:ResourceType", "3")
    + Field(8, "rasd:VirtualQuantity", "1")
    + Indent(6) + "</Item>"

  /** The memory item up to its element name, which carries the size. */
  const MemoryHead :=
    "<Item>"
    + Field(8, "rasd:AllocationUnits", "byte * 2^20")
    + Field(8, "rasd:Description", "Memory Size")
    + Indent(8)

  const MemoryMiddle :=
    Field(8, "rasd:InstanceID", "2")
    + Field(8, "rasd:ResourceType", "4")
    + Indent(8)

  /** The IDE controller, instance 4, which the disk items name as their parent. */
  const IdeControllerItem :=
    "<Item>"
    + Field(8, "rasd:Address", "0")
    + Field(8, "rasd:Description", "IDE Controller")
    + Field(8, "rasd:ElementName", "VirtualIDEController 0")
    + Field(8, "rasd:InstanceID", "4")
    + Field(8, "rasd:ResourceType", "5")
    + Indent(6) + "</Item>"

  const VideoCardItem :=
    "<Item " + Attribute("ovf:required", "false") + ">"
    + Field(8, "rasd:AutomaticAllocation", "false")
    + Field(8, "rasd:ElementName", "VirtualVideoCard")
    + Field(8, "rasd:InstanceID", "5")
    + Field(8, "rasd:ResourceType", "24")
    + Indent(6) + "</Item>"

  /** The network adapter, connected to `LAN`. */
  const EthernetItem :=
    "<Item>"
    + Field(8, "rasd:AddressOnParent", "7")
    + Field(8, "rasd:AutomaticAllocation", "true")
    + Field(8, "rasd:Connection", "LAN")
    + Field(8, "rasd:Description", "PCNet32 ethernet adapter on \"LAN\"")
    + Field(8, "rasd:ElementName", "Ethernet 1")
    + Field(8, "rasd:InstanceID", "9")
    + Field(8, "rasd:ResourceSubType", "PCNet32")
    + Field(8, "rasd:ResourceType", "10")
    + Indent(6) + "</Item>"

  /** The fixed text `createOvf` writes. */
  const OvfTexts := EnvelopeTexts(
    Opening,
    Field(4, "Info", "Virtual disk information") + Indent(4),
    NetworkBody,
    Field(4, "Info", "A virtual machine") + Indent(4),
    Field(6, "Info", "The kind of installed guest operating system") + Indent(4),
    Field(6, "Info", "Virtual hardware requirements") + Indent(6),
    SystemHead, SystemTail, CpuItem, MemoryHead, MemoryMiddle,
    IdeControllerItem, VideoCardItem, EthernetItem,
    Field(6, "Info", "A human-readable annotation") + Indent(6))

  function ReferencesParts(section: DiskSection): seq<string>
  {
    ["<References>", Indent(4), section.fileReferences, Indent(2), "</References>"]
  }

  function DiskSectionParts(texts: EnvelopeTexts, section: DiskSection): seq<string>
  {
    ["<DiskSection>", texts.diskSectionInfo, section.diskFragments, Indent(2), "</DiskSection>"]
  }

  function NetworkSectionParts(texts: EnvelopeTexts): seq<string>
  {
    ["<NetworkSection>", texts.networkBody, "</NetworkSection>"]
  }

  /** The opening tag of the virtual system, carrying its id. */
  function VirtualSystemTag(id: string): string
  {
    "<VirtualSystem " + Attribute("ovf:id", id) + ">"
  }

  /** The opening tag of the operating system section, carrying its id. */
  function OsSectionTag(id: string): string
  {
    "<OperatingSystemSection " + Attribute("ovf:id", id) + ">"
  }

  function OsSectionParts(texts: EnvelopeTexts, osSectionId: string): seq<string>
  {
    [OsSectionTag(osSectionId), texts.osInfo, "</OperatingSystemSection>"]
  }

  function SystemParts(texts: EnvelopeTexts, vmName: string): seq<string>
  {
    ["<System>", texts.systemHead, Element("vssd:VirtualSystemIdentifier", vmName), texts.systemTail, "</System>"]
  }

  function MemoryItemParts(texts: EnvelopeTexts, vmMemoryMB: nat): seq<string>
  {
    [ texts.memoryHead, Element("rasd:ElementName", NatToString(vmMemoryMB) + "MB of memory"),
      texts.memoryMiddle, Element("rasd:VirtualQuantity", NatToString(vmMemoryMB)),
      Indent(6), "</Item>" ]
  }

  function HardwareSectionParts(texts: EnvelopeTexts, vmName: string, vmMemoryMB: nat, diskItems: string): seq<string>
  {
    [ "<VirtualHardwareSection>", texts.hardwareInfo,
      Concat(SystemParts(texts, vmName)), Indent(6),
      texts.cpuItem, Indent(6),
      Concat(MemoryItemParts(texts, vmMemoryMB)), Indent(6),
      texts.ideControllerItem, Indent(6),
      texts.videoCardItem, Indent(6),
      diskItems, Indent(6),
      texts.ethernetItem, Indent(4),
      "</VirtualHardwareSection>" ]
  }

  function AnnotationSectionParts(texts: EnvelopeTexts, vmDescription: string): seq<string>
  {
    [ "<AnnotationSection " + Attribute("ovf:required", "false") + ">", texts.annotationInfo,
      Element("Annotation", vmDescription), Indent(4), "</AnnotationSection>" ]
  }

  function VirtualSystemParts(texts: EnvelopeTexts, vmName: string, vmDescription: string, vmMemoryMB: nat,
                              diskItems: string, virtualSystemId: string, osSectionId: string): seq<string>
  {
    [ VirtualSystemTag(virtualSystemId), texts.systemInfo,
      Element("Name", vmName), Indent(4),
      Concat(OsSectionParts(texts, osSectionId)), Indent(4),
      Concat(HardwareSectionParts(texts, vmName, vmMemoryMB, diskItems)), Indent(4),
      Concat(AnnotationSectionParts(texts, vmDescription)), Indent(2),
      "</VirtualSystem>" ]
  }

  /**
   * The envelope: the fixed texts with the disk section, the VM's name,
   * description and memory size and the two section ids in their places.
   */
  function EnvelopeParts(texts: EnvelopeTexts, vmName: string, vmDescription: string, vmMemoryMB: nat,
                         section: DiskSection, virtualSystemId: string, osSectionId: string): seq<string>
  {
    [ texts.opening,
      Concat(ReferencesParts(section)), Indent(2),
      Concat(DiskSectionParts(texts, section)), Indent(2),
      Concat(NetworkSectionParts(texts)), Indent(2),
      Concat(VirtualSystemParts(texts, vmName, vmDescription, vmMemoryMB, section.diskItems,
                                virtualSystemId, osSectionId)),
      "\n", "</ovf:Envelope>" ]
  }

  /** `nextId()`: the current value of the counter, and the counter after it. */
  function NextId(counter: nat): (nat, nat)
  {
    (counter, counter + 1)
  }

  /**
   * `createOvf(vmName, vmDescription, disks, vmMemoryMB = 64)`: the descriptor,
   * numbering the virtual system and the operating system section from a
   * counter that starts at 1.
   */
  function CreateOvf(vmName: string, vmDescription: string, disks: seq<Disk>, vmMemoryMB: nat := 64): (r: string)
    ensures Before(r, "<References>", "<DiskSection>") && Before(r, "<DiskSection>", "<NetworkSection>")
    ensures Before(r, "<NetworkSection>", VirtualSystemTag("1")) && Before(r, VirtualSystemTag("1"), OsSectionTag("2"))
    ensures Contains(r, Element("Name", vmName)) && Contains(r, Element("Annotation", vmDescription))
  {
    var section := DiskSectionOf(disks);
    var (virtualSystemId, counter) := NextId(1);
    var (osSectionId, _) := NextId(counter);
    assert NatToString(virtualSystemId) == "1" && NatToString(osSectionId) == "2";
    EnvelopeSectionOrder(OvfTexts, vmName, vmDescription, vmMemoryMB, section, "1", "2");
    EnvelopeIdentifiers(OvfTexts, vmName, vmDescription, vmMemoryMB, section, "1", "2");
    EnvelopeNames(OvfTexts, vmName, vmDescription, vmMemoryMB, section, "1", "2");
    Concat(EnvelopeParts(OvfTexts, vmName, vmDescription, vmMemoryMB, section,
                         NatToString(virtualSystemId), NatToString(osSectionId)))
  }

  /**
   * `createOvf` fills the envelope with the fixed texts above and numbers the
   * virtual system 1 and its operating system section 2, whatever the disks.
   */
  lemma CreateOvfTemplate(vmName: string, vmDescription: string, disks: seq<Disk>, vmMemoryMB: nat)
    ensures CreateOvf(vmName, vmDescription, disks, vmMemoryMB)
         == Concat(EnvelopeParts(OvfTexts, vmName, vmDescription, vmMemoryMB, DiskSectionOf(disks), "1", "2"))
  {
    assert NatToString(1) == "1" && NatToString(2) == "2";
  }

  /** The sections come in the order References, DiskSection, NetworkSection, VirtualSystem. */
  lemma EnvelopeSectionOrder(texts: EnvelopeTexts, vmName: string, vmDescription: string, vmMemoryMB: nat,
                             section: DiskSection, virtualSystemId: string, osSectionId: string)
    ensures var r := Concat(EnvelopeParts(texts, vmName, vmDescription, vmMemoryMB, section, virtualSystemId, osSectionId));
      && Before(r, "<References>", "<DiskSection>")
      && Before(r, "<DiskSection>", "<NetworkSection>")
      && Before(r, "<NetworkSection>", VirtualSystemTag(virtualSystemId))
  {
    var references := ReferencesParts(section);
    var disk := DiskSectionParts(texts, section);
    var network := NetworkSectionParts(texts);
    var system := VirtualSystemParts(texts, vmName, vmDescription, vmMemoryMB, section.diskItems, virtualSystemId, osSectionId);
    PartContained(references, 0, "<References>");
    PartContained(disk, 0, "<DiskSection>");
    PartContained(network, 0, "<NetworkSection>");
    PartContained(system, 0, VirtualSystemTag(virtualSystemId));
    var parts := EnvelopeParts(texts, vmName, vmDescription, vmMemoryMB, section, virtualSystemId, osSectionId);
    PartsInOrderWithin(parts, 1, 3, "<References>", "<DiskSection>");
    PartsInOrderWithin(parts, 3, 5, "<DiskSection>", "<NetworkSection>");
    PartsInOrderWithin(parts, 5, 7, "<NetworkSection>", VirtualSystemTag(virtualSystemId));
  }

  /** The file references sit inside the References section, the disk records inside the DiskSection. */
  lemma EnvelopeFragmentsPlaced(texts: EnvelopeTexts, vmName: string, vmDescription: string, vmMemoryMB: nat,
                                section: DiskSection, virtualSystemId: string, osSectionId: string)
    ensures var r := Concat(EnvelopeParts(texts, vmName, vmDescription, vmMemoryMB, section, virtualSystemId, osSectionId));
      && Before(r, "<References>", section.fileReferences)
      && Before(r, section.fileReferences, "</References>")
      && Before(r, "<DiskSection>", section.diskFragments)
      && Before(r, section.diskFragments, "</DiskSection>")
  {
    var parts := EnvelopeParts(texts, vmName, vmDescription, vmMemoryMB, section, virtualSystemId, osSectionId);
    var r := Concat(parts);
    var references, disk := ReferencesParts(section), DiskSectionParts(texts, section);
    PartContained(parts, 1, Concat(references));
    PartContained(parts, 3, Concat(disk));
    PartsInOrder(references, 0, 2, "<References>", section.fileReferences);
    PartsInOrder(references, 2, 4, section.fileReferences, "</References>");
    PartsInOrder(disk, 0, 2, "<DiskSection>", section.diskFragments);
    PartsInOrder(disk, 2, 4, section.diskFragments, "</DiskSection>");
    BeforeWithin(r, Concat(references), "<References>", section.fileReferences);
    BeforeWithin(r, Concat(references), section.fileReferences, "</References>");
    BeforeWithin(r, Concat(disk), "<DiskSection>", section.diskFragments);
    BeforeWithin(r, Concat(disk), section.diskFragments, "</DiskSection>");
  }

  /**
   * Inside the hardware section the VM's name fills VirtualSystemIdentifier,
   * its memory size fills the memory item's name and quantity, and the disks'
   * items come after the video card and before the Ethernet adapter.
   */
  lemma HardwareSectionLayout(texts: EnvelopeTexts, vmName: string, vmMemoryMB: nat, diskItems: string)
    ensures var h := Concat(HardwareSectionParts(texts, vmName, vmMemoryMB, diskItems));
      && Contains(h, Element("vssd:VirtualSystemIdentifier", vmName))
      && Contains(h, Element("rasd:ElementName", NatToString(vmMemoryMB) + "MB of memory"))
      && Contains(h, Element("rasd:VirtualQuantity", NatToString(vmMemoryMB)))
      && Before(h, texts.videoCardItem, diskItems)
      && Before(h, diskItems, texts.ethernetItem)
  {
    var parts := HardwareSectionParts(texts, vmName, vmMemoryMB, diskItems);
    var h := Concat(parts);
    var system, memory := SystemParts(texts, vmName), MemoryItemParts(texts, vmMemoryMB);
    assert Contains(h, Element("vssd:VirtualSystemIdentifier", vmName)) by {
      PartContained(parts, 2, Concat(system));
      PartContained(system, 2, Element("vssd:VirtualSystemIdentifier", vmName));
      ContainsWithin(h, Concat(system), Element("vssd:VirtualSystemIdentifier", vmName));
    }
    assert Contains(h, Element("rasd:ElementName", NatToString(vmMemoryMB) + "MB of memory"))
        && Contains(h, Element("rasd:VirtualQuantity", NatToString(vmMemoryMB))) by {
      PartContained(parts, 6, Concat(memory));
      PartContained(memory, 1, Element("rasd:ElementName", NatToString(vmMemoryMB) + "MB of memory"));
      PartContained(memory, 3, Element("rasd:VirtualQuantity", NatToString(vmMemoryMB)));
      ContainsWithin(h, Concat(memory), Element("rasd:ElementName", NatToString(vmMemoryMB) + "MB of memory"));
      ContainsWithin(h, Concat(memory), Element("rasd:VirtualQuantity", NatToString(vmMemoryMB)));
    }
    PartsInOrder(parts, 10, 12, texts.videoCardItem, diskItems);
    PartsInOrder(parts, 12, 14, diskItems, texts.ethernetItem);
  }

  /**
   * Inside the virtual system the VM's name fills Name, its description fills
   * Annotation, and the system's id tag comes before the operating system
   * section's.
   */
  lemma VirtualSystemLayout(texts: EnvelopeTexts, vmName: string, vmDescription: string, vmMemoryMB: nat,
                            diskItems: string, virtualSystemId: string, osSectionId: string)
    ensures var v := Concat(VirtualSystemParts(texts, vmName, vmDescription, vmMemoryMB, diskItems, virtualSystemId, osSectionId));
      && Contains(v, Element("Name", vmName))
      && Contains(v, Element("Annotation", vmDescription))
      && Before(v, VirtualSystemTag(virtualSystemId), OsSectionTag(osSectionId))
      && Contains(v, Concat(HardwareSectionParts(texts, vmName, vmMemoryMB, diskItems)))
  {
    var parts := VirtualSystemParts(texts, vmName, vmDescription, vmMemoryMB, diskItems, virtualSystemId, osSectionId);
    var v := Concat(parts);
    var os, annotation := OsSectionParts(texts, osSectionId), AnnotationSectionParts(texts, vmDescription);
    PartContained(parts, 2, Element("Name", vmName));
    PartContained(parts, 6, Concat(HardwareSectionParts(texts, vmName, vmMemoryMB, diskItems)));
    assert Contains(v, Element("Annotation", vmDescription)) by {
      PartContained(parts, 8, Concat(annotation));
      PartContained(annotation, 2, Element("Annotation", vmDescription));
      ContainsWithin(v, Concat(annotation), Element("Annotation", vmDescription));
    }
    assert Before(v, VirtualSystemTag(virtualSystemId), OsSectionTag(osSectionId)) by {
      ContainsSelf(VirtualSystemTag(virtualSystemId));
      PartContained(os, 0, OsSectionTag(osSectionId));
      PartsInOrderWithin(parts, 0, 4, VirtualSystemTag(virtualSystemId), OsSectionTag(osSectionId));
    }
  }

  /** The virtual system carries its id, and the operating system section inside it carries the other. */
  lemma EnvelopeIdentifiers(texts: EnvelopeTexts, vmName: string, vmDescription: string, vmMemoryMB: nat,
                            section: DiskSection, virtualSystemId: string, osSectionId: string)
    ensures var r := Concat(EnvelopeParts(texts, vmName, vmDescription, vmMemoryMB, section, virtualSystemId, osSectionId));
      Before(r, VirtualSystemTag(virtualSystemId), OsSectionTag(osSectionId))
  {
    var parts := EnvelopeParts(texts, vmName, vmDescription, vmMemoryMB, section, virtualSystemId, osSectionId);
    var v := Concat(VirtualSystemParts(texts, vmName, vmDescription, vmMemoryMB, section.diskItems, virtualSystemId, osSectionId));
    VirtualSystemLayout(texts, vmName, vmDescription, vmMemoryMB, section.diskItems, virtualSystemId, osSectionId);
    PartContained(parts, 7, v);
    BeforeWithin(Concat(parts), v, VirtualSystemTag(virtualSystemId), OsSectionTag(osSectionId));
  }

  /** The virtual system, and the hardware section inside it, are parts of the envelope. */
  lemma EnvelopeSections(texts: EnvelopeTexts, vmName: string, vmDescription: string, vmMemoryMB: nat,
                         section: DiskSection, virtualSystemId: string, osSectionId: string)
    ensures var r := Concat(EnvelopeParts(texts, vmName, vmDescription, vmMemoryMB, section, virtualSystemId, osSectionId));
      && Contains(r, Concat(VirtualSystemParts(texts, vmName, vmDescription, vmMemoryMB, section.diskItems, virtualSystemId, osSectionId)))
      && Contains(r, Concat(HardwareSectionParts(texts, vmName, vmMemoryMB, section.diskItems)))
  {
    var parts := EnvelopeParts(texts, vmName, vmDescription, vmMemoryMB, section, virtualSystemId, osSectionId);
    var v := Concat(VirtualSystemParts(texts, vmName, vmDescription, vmMemoryMB, section.diskItems, virtualSystemId, osSectionId));
    var h := Concat(HardwareSectionParts(texts, vmName, vmMemoryMB, section.diskItems));
    PartContained(parts, 7, v);
    VirtualSystemLayout(texts, vmName, vmDescription, vmMemoryMB, section.diskItems, virtualSystemId, osSectionId);
    ContainsWithin(Concat(parts), v, h);
  }

  /** The VM's name fills both Name and VirtualSystemIdentifier, and its description fills Annotation. */
  lemma EnvelopeNames(texts: EnvelopeTexts, vmName: string, vmDescription: string, vmMemoryMB: nat,
                      section: DiskSection, virtualSystemId: string, osSectionId: string)
    ensures var r := Concat(EnvelopeParts(texts, vmName, vmDescription, vmMemoryMB, section, virtualSystemId, osSectionId));
      && Contains(r, Element("Name", vmName))
      && Contains(r, Element("vssd:VirtualSystemIdentifier", vmName))
      && Contains(r, Element("Annotation", vmDescription))
  {
    var r := Concat(EnvelopeParts(texts, vmName, vmDescription, vmMemoryMB, section, virtualSystemId, osSectionId));
    var v := Concat(VirtualSystemParts(texts, vmName, vmDescription, vmMemoryMB, section.diskItems, virtualSystemId, osSectionId));
    var h := Concat(HardwareSectionParts(texts, vmName, vmMemoryMB, section.diskItems));
    EnvelopeSections(texts, vmName, vmDescription, vmMemoryMB, section, virtualSystemId, osSectionId);
    assert Contains(v, Element("Name", vmName)) && Contains(v, Element("Annotation", vmDescription)) by {
      VirtualSystemLayout(texts, vmName, vmDescription, vmMemoryMB, section.diskItems, virtualSystemId, osSectionId);
    }
    assert Contains(h, Element("vssd:VirtualSystemIdentifier", vmName)) by {
      HardwareSectionLayout(texts, vmName, vmMemoryMB, section.diskItems);
    }
    ContainsWithin(r, v, Element("Name", vmName));
    ContainsWithin(r, v, Element("Annotation", vmDescription));
    ContainsWithin(r, h, Element("vssd:VirtualSystemIdentifier", vmName));
  }

  /** The memory size, in MB, fills the memory item's name and its quantity. */
  lemma EnvelopeMemory(texts: EnvelopeTexts, vmName: string, vmDescription: string, vmMemoryMB: nat,
                       section: DiskSection, virtualSystemId: string, osSectionId: string)
    ensures var r := Concat(EnvelopeParts(texts, vmName, vmDescription, vmMemoryMB, section, virtualSystemId, osSectionId));
      && Contains(r, Element("rasd:ElementName", NatToString(vmMemoryMB) + "MB of memory"))
      && Contains(r, Element("rasd:VirtualQuantity", NatToString(vmMemoryMB)))
  {
    var r := Concat(EnvelopeParts(texts, vmName, vmDescription, vmMemoryMB, section, virtualSystemId, osSectionId));
    var h := Concat(HardwareSectionParts(texts, vmName, vmMemoryMB, section.diskItems));
    EnvelopeSections(texts, vmName, vmDescription, vmMemoryMB, section, virtualSystemId, osSectionId);
    assert Contains(h, Element("rasd:ElementName", NatToString(vmMemoryMB) + "MB of memory"))
        && Contains(h, Element("rasd:VirtualQuantity", NatToString(vmMemoryMB))) by {
      HardwareSectionLayout(texts, vmName, vmMemoryMB, section.diskItems);
    }
    ContainsWithin(r, h, Element("rasd:ElementName", NatToString(vmMemoryMB) + "MB of memory"));
    ContainsWithin(r, h, Element("rasd:VirtualQuantity", NatToString(vmMemoryMB)));
  }

  /** The disks' hardware items come after the video card and before the Ethernet adapter. */
  lemma EnvelopeDiskItems(texts: EnvelopeTexts, vmName: string, vmDescription: string, vmMemoryMB: nat,
                          section: DiskSection, virtualSystemId: string, osSectionId: string)
    ensures var r := Concat(EnvelopeParts(texts, vmName, vmDescription, vmMemoryMB, section, virtualSystemId, osSectionId));
      && Before(r, texts.videoCardItem, section.diskItems)
      && Before(r, section.diskItems, texts.ethernetItem)
  {
    var r := Concat(EnvelopeParts(texts, vmName, vmDescription, vmMemoryMB, section, virtualSystemId, osSectionId));
    var h := Concat(HardwareSectionParts(texts, vmName, vmMemoryMB, section.diskItems));
    EnvelopeSections(texts, vmName, vmDescription, vmMemoryMB, section, virtualSystemId, osSectionId);
    assert Before(h, texts.videoCardItem, section.diskItems) && Before(h, section.diskItems, texts.ethernetItem) by {
      HardwareSectionLayout(texts, vmName, vmMemoryMB, section.diskItems);
    }
    BeforeWithin(r, h, texts.videoCardItem, section.diskItems);
    BeforeWithin(r, h, section.diskItems, texts.ethernetItem);
  }

  /** With the default memory size the envelope declares a quantity of 64 (MB). */
  lemma EnvelopeDefaultMemory(texts: EnvelopeTexts, vmName: string, vmDescription: string,
                              section: DiskSection, virtualSystemId: string, osSectionId: string)
    ensures var r := Concat(EnvelopeParts(texts, vmName, vmDescription, 64, section, virtualSystemId, osSectionId));
      Contains(r, Element("rasd:VirtualQuantity", "64"))
  {
    EnvelopeMemory(texts, vmName, vmDescription, 64, section, virtualSystemId, osSectionId);
    assert NatToString(64) == "64";
  }

  /** `createOvf` without a memory size fills the envelope with 64 MB. */
  lemma CreateOvfDefaultMemory(vmName: string, vmDescription: string, disks: seq<Disk>)
    ensures CreateOvf(vmName, vmDescription, disks)
         == Concat(EnvelopeParts(OvfTexts, vmName, vmDescription, 64, DiskSectionOf(disks), "1", "2"))
  {
    CreateOvfTemplate(vmName, vmDescription, disks, 64);
  }
}
