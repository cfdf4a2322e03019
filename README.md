# chad_vis, modelled in Dafny

chad_vis is a small Vulkan rendering engine. Almost everything it does ends in a call into Vulkan,
VMA, SPIRV-Reflect, SFML or GLFW. Around those calls it makes a number of deterministic decisions. This
project models those decisions and proves what they guarantee:

- which physical device is picked and which queue family takes each role. The repository has three
  variants of this code (`Selector`, `VisDevice`, `CoreDevice`).
- the layout, access and stage state each image tracks, and the barriers its transitions record
  (`Images`).
- the host-access flags of a buffer (`Buffers`).
- the swapchain's configuration, frame-slot rotation, resize requests and frame pacing. There are two
  variants: `Swapchains` for the source file and `HeaderSwapchain` for the header-only one.
- the vertex layout and descriptor layouts built from shader reflection (`Reflection`,
  `Descriptors`).
- the compute and graphics pipelines built over those layouts (`Pipelines`).
- the input state machines fed by window events: `Input` for the SFML front end and `LegacyInput`
  for the older GLFW one.

A foreign call becomes an entry appended to a log, the record `Vk.Gpu.calls`. A command recorded
into a command buffer is appended to `Vk.CommandBuffer.commands`. Handles are natural numbers handed
out fresh, with 0 as the null handle. Whatever a foreign call answers (device lists, surface
capabilities, fence, acquire, present and pipeline-creation results, the clock, reflection data) is a
parameter of the member that receives it. Where the code does not branch on an answer, creation is
assumed to succeed; "## Left out" names those places.

Vulkan flag words are sets of bits. "flags contain mask" becomes `mask <= flags` and popcount
becomes set cardinality.

An `assert` in the source is modelled as it behaves in a debug build: the member reports failure, and
the model says what was recorded before the failure. Behaviour that is undefined in C++ becomes a
`requires` clause, for example `front()` of an empty vector or `%` by zero.

Where the source leaves a choice open, the contracts leave it open too. Examples are the order
`std::sort` gives to equal elements, and which of two equally good families or devices is picked.

Three behaviours of the code are worth knowing when reading the contracts:

- `present` in `src/chad_vis/core/swapchain.cpp` does not retry an acquire that times out
  (lines 151-170). The acquire result is switched on once: a timeout reaches the `default:` case and
  returns, so the frame is abandoned without a resize request.
- Vertex attributes are sorted by location before their offsets are assigned
  (`src/chad_vis/device/pipeline.cpp:58-65`). Inputs at locations 2, 0 and 1 with sizes 12, 8 and 16
  therefore get offsets 0, 8 and 24 in location order, and the stride is 36
  (`Reflection.VertexExample`).
- Descriptor sets are bound from index 0, and the layout of a set sits at the rank of its set number
  among the sets in use, not at the set number itself (`src/chad_vis/device/pipeline.cpp:190-205`).
  The two agree only when the used sets are 0 to n - 1 (`Descriptors.LayoutIndexSkipsUnusedSets`).

## Model

| member | source | states |
|---|---|---|
| Selector.ApiVersionFields | src/chad_vis/device/selector.cpp:118-119 | the major and minor fields read back from a composed version are the ones it was composed from |
| Selector.ApiCheckIsComponentwise | src/chad_vis/device/selector.cpp:116-122 | major and minor are compared separately, so a 2.0 device fails a 1.3 requirement while a 1.3 device passes |
| Selector.CheckExtensions | src/chad_vis/device/selector.cpp:123-141 | the check passes exactly when every required extension is among the available ones |
| Selector.CheckExtension | src/chad_vis/device/selector.cpp:107-115 | found exactly when the name is among the available extensions |
| Selector.AvailableOnly | src/chad_vis/device/selector.cpp:84-92 | the kept optional names are exactly those the device reports, and there are no more of them than were listed |
| Selector.AppendAvailable | src/chad_vis/device/selector.cpp:84-92 | the extension list grows by the available optional extensions, in the caller's order |
| Selector.NoFeatures | include/chad_vis/device/selector.hpp:26-29 | value-initialised feature structs have the member counts of the four Vulkan feature structs |
| Selector.CheckFeatures | src/chad_vis/device/selector.cpp:143-173 | passes exactly when every required feature flag is also available |
| Selector.CheckCoreFeatures | src/chad_vis/device/selector.cpp:174-186 | passes exactly when the core, 1.1, 1.2 and 1.3 structs are each covered |
| Selector.NothingRequiredPasses | src/chad_vis/device/selector.cpp:167-172 | requiring no feature passes on any device |
| Selector.CandidatesMeaning | src/chad_vis/device/selector.cpp:210-221 | a mask's candidate list holds exactly the families whose flags contain the mask, each with its popcount |
| Selector.CandidatesNonEmpty | src/chad_vis/device/selector.cpp:236 | when some family supports the mask, its candidate list is not empty, so `front()` is defined |
| Selector.CollectCandidates | src/chad_vis/device/selector.cpp:206-221 | the nested loop builds, for every requested mask, exactly its candidate list |
| Selector.FewestCapabilities | src/chad_vis/device/selector.cpp:230-236 | the family picked is one with the fewest capabilities in the list; ties are not resolved |
| Selector.PickedIsBest | src/chad_vis/device/selector.cpp:229-236 | the family picked from the candidates supports the mask with no more capabilities than any other family that does |
| Selector.AssignmentStep | src/chad_vis/device/selector.cpp:238-248 | each step extends the mapping by a best family and adds a create-info only for a family not seen before |
| Selector.DedicatedTransferPreferred | src/chad_vis/device/selector.cpp:230-236 | a transfer-only family is chosen for the transfer role over a universal family |
| Selector.SingleQueueInfos | src/chad_vis/device/selector.cpp:244-248 | one create-info per listed family, in order, each with one queue |
| Selector.LocalMemorySize | src/chad_vis/device/selector.cpp:30-36 | the 64-bit sum of the device-local heap sizes, modulo 2^64 |
| Selector.PreferredTypeOutranks | src/chad_vis/device/selector.cpp:37 | below 2^63 bytes of local memory, a device of the preferred type scores above every other device |
| Selector.BonusWrapsAround | src/chad_vis/device/selector.cpp:37 | a preferred device with 2^63 bytes of local memory wraps to a score of 0 |
| Selector.HighestScore | src/chad_vis/device/selector.cpp:50-56 | the front after the descending sort has a score no lower than any other match |
| Selector.MainChain | src/chad_vis/device/selector.cpp:62-78 | the chain starts with the core features and holds the 1.1, 1.2 and 1.3 structs exactly when the required minor version reaches them |
| Selector.CreateQueueInfos | src/chad_vis/device/selector.cpp:203-251 | every requested queue gets a best family, and one single-queue create-info is made per distinct family, in order of first use |
| Selector.CheckPresentation | src/chad_vis/device/selector.cpp:187-202 | passes with no surface; otherwise passes exactly when some family of the queue assignment can present |
| Selector.Evaluate | src/chad_vis/device/selector.cpp:21-39 | a device passes exactly when the version, extension, feature and presentation checks all pass, and a passing one carries its score |
| Selector.MatchDevices | src/chad_vis/device/selector.cpp:20-42 | every device gets its verdict, and exactly the passing devices are listed, each with its score |
| Selector.Selector.constructor | include/chad_vis/device/selector.hpp:21-30 | the member defaults: Vulkan 1.0, a discrete GPU preferred, nothing else required |
| Selector.Selector.SelectPhysicalDevice | src/chad_vis/device/selector.cpp:6-59 | with no passing device there is no result (the exit(0) path); otherwise the result is a passing device with the highest score |
| Selector.Selector.CreateLogicalDevice | src/chad_vis/device/selector.cpp:60-106 | the available optional extensions are appended, and one device-creation call is recorded with the feature chain, the single-queue infos and the extended list |
| VisDevice.DefaultCreateInfo | include/chad_vis/core/device.hpp:5-18 | the create-info defaults: no surface, Vulkan 1.0, a discrete GPU preferred, nothing required |
| VisDevice.GetQueueFamilies | src/chad_vis/core/device.cpp:74-117 | four families, one per role, each covering its role with the fewest capabilities |
| VisDevice.CheckPresentation | src/chad_vis/core/device.cpp:118-133 | passes with no surface; otherwise passes exactly when one of the four role families can present |
| VisDevice.Evaluate | src/chad_vis/core/device.cpp:158-176 | a device passes exactly when the extension, version, feature and presentation checks pass, and a passing one is scored by its local memory alone |
| VisDevice.CreatePhysical | src/chad_vis/core/device.cpp:144-196 | with no passing device there is no result (the exit(0) path); otherwise a passing device with the largest 64-bit local-memory total |
| VisDevice.AvailableFeatures | src/chad_vis/core/device.cpp:233-241 | a feature struct is chained exactly when its guarding extension is available |
| VisDevice.ChainOptionalFeatures | src/chad_vis/core/device.cpp:233-241 | the chain grows by the available optional features, in the caller's order |
| VisDevice.FamiliesOf | src/chad_vis/core/device.cpp:251-256 | the family index of each queue create-info |
| VisDevice.TallyQueues | src/chad_vis/core/device.cpp:243-257 | one single-queue create-info per distinct family, in strictly ascending family order |
| VisDevice.CreateLogical | src/chad_vis/core/device.cpp:197-268 | one device-creation call with the main chain plus the available features, the ascending queue infos, and the required extensions followed by the available optional ones |
| VisDevice.Device.Open | src/chad_vis/core/device.cpp:274-283 | the four roles form a best-family assignment, and the device-creation call is recorded |
| VisDevice.Device.GetQueues | src/chad_vis/core/device.cpp:285-289 | queue 0 of each role's family, fetched in role order |
| VisDevice.Device.CreatePools | src/chad_vis/core/device.cpp:291-307 | one transient pool per role's family, in role order |
| VisDevice.Device.Init | src/chad_vis/core/device.cpp:270-308 | exit(0) when no device passes, with nothing created; otherwise the best device is opened, then its queues and pools |
| VisDevice.Device.OpenQueues | src/chad_vis/core/device.cpp:285-307 | the queue fetches, then the pool creations, with roles and devices unchanged |
| VisDevice.Device.Destroy | src/chad_vis/core/device.cpp:309-315 | the four pools, then the device |
| VisDevice.Device.OneshotBegin | src/chad_vis/core/device.cpp:317-326 | a fresh, empty buffer is allocated from the universal pool and begun |
| VisDevice.Device.OneshotEnd | src/chad_vis/core/device.cpp:327-338 | end, submit to the universal queue with no fence and no wait semaphores, wait for idle, then free to the universal pool |
| VisDevice.SingleFamilyTakesEveryRole | src/chad_vis/core/device.cpp:103-115 | on a device with one universal family, every role maps to it, and a single queue create-info results |
| CoreDevice.Evaluate | src/core/device.cpp:117-133 | a device passes exactly when the extension, version and presentation checks pass (no feature check), and a passing one is scored by its local memory alone |
| CoreDevice.CreatePhysical | src/core/device.cpp:102-153 | with no passing device there is no result (the exit(0) path); otherwise a passing device with the largest 64-bit local-memory total |
| CoreDevice.ExtensionsOf | src/core/device.cpp:189-190 | the guarding extension of each optional feature, in order |
| CoreDevice.CollectExtensions | src/core/device.cpp:178-200 | the required extensions come first, followed by each available optional extension or guard exactly once |
| CoreDevice.SharedExtensionEnabledOnce | src/core/device.cpp:179-195 | an extension that is both optional and a feature guard is enabled exactly once |
| CoreDevice.DistinctCount | src/core/device.cpp:179 | an element of a duplicate-free list occurs exactly once |
| CoreDevice.CreateLogical | src/core/device.cpp:154-227 | one device-creation call with the main chain plus the available optional features, one queue per used family in ascending order, and the enabled extensions |
| CoreDevice.AwaitFence | src/core/device.cpp:337 | the fence is waited on until the first answer that is not eTimeout, and once per answer up to it |
| CoreDevice.Device.RolesAgree | src/core/device.cpp:308-346 | for every queue type, the queue and pool the switches pick were both created for that type's family |
| CoreDevice.Device.Open | src/core/device.cpp:233-244 | the four roles form a best-family assignment, and the device-creation call is recorded |
| CoreDevice.Device.GetQueues | src/core/device.cpp:246-250 | one queue is fetched per role, from that role's family |
| CoreDevice.Device.CreatePools | src/core/device.cpp:252-268 | one transient command pool is created per role, for that role's family |
| CoreDevice.Device.OpenQueues | src/core/device.cpp:246-292 | queues, then pools, then the unsignalled fence, then the allocator, with roles and devices unchanged |
| CoreDevice.Device.CreateFenceAndAllocator | src/core/device.cpp:270-292 | an unsignalled fence, then an allocator for this physical and logical device |
| CoreDevice.Device.Init | src/core/device.cpp:229-293 | exit(0) when no device passes, with nothing created; otherwise the best device is opened and every creation call is recorded in source order |
| CoreDevice.Device.Destroy | src/core/device.cpp:294-302 | the allocator, the fence, the four pools, then the device, in that order |
| CoreDevice.Device.OneshotBegin | src/core/device.cpp:303-317 | a fresh, empty buffer is allocated from the queue type's pool and begun |
| CoreDevice.Device.OneshotEnd | src/core/device.cpp:318-347 | end, submit to the queue type's queue with the fence, wait through every timeout, reset the fence, then free the buffer to the same pool |
| Images.DefaultCreateInfo | include/chad_vis/device/image.hpp:8-16 | a create-info built without aspects keeps the given format, extent and usage and takes the colour aspect |
| Images.DefaultTransition | include/chad_vis/device/image.hpp:23-28 | a transition built from a layout alone goes to top-of-pipe with memory read and write access |
| Images.BarrierBetween | src/buffers/image.cpp:131-146 | the barrier's source half is the state it leaves and its destination half the state it enters, over the given image and aspects |
| Images.After | src/buffers/image.cpp:152-154 | after a run of transitions the tracked state is the one the last transition asked for, or unchanged after none |
| Images.BarriersChain | src/buffers/image.cpp:130-155 | a run of transitions records one barrier each: the first leaves the tracked state, each later one leaves the state the one before it entered, and each enters the state its transition asked for |
| Images.SelfTransition | src/buffers/image.cpp:130-155 | a transition to the state already tracked keeps it and records a barrier from that state to itself |
| Images.Image.Init | src/buffers/image.cpp:3-49 | an owned image in the initial state with the create-info's format, extent and aspects, created with its memory and then a view with those aspects |
| Images.Image.CreateWithView | src/buffers/image.cpp:12-48 | the image and its allocation are created from the current format, extent and usage, then its view |
| Images.Image.Wrap | src/buffers/image.cpp:50-59 | a borrowed image in the initial state with the wrapped handle, view, extent and aspects; its format is left as it was |
| Images.Image.Destroy | src/buffers/image.cpp:60-65 | the image and its view are destroyed exactly when the image is owned |
| Images.Image.TransitionLayout | src/buffers/image.cpp:130-155 | one barrier from the tracked state to the requested one is recorded, and the requested state becomes the tracked one |
| Images.Image.Blit | src/buffers/image.cpp:156-188 | one blit of the whole source, read in transfer-source layout, onto the whole image in transfer-destination layout; neither tracked state changes |
| Images.Image.LoadTexture | src/buffers/image.cpp:66-129 | a staging buffer is created, filled and unmapped, a one-shot universal buffer records a transition to transfer-destination and the copy, is submitted and awaited, and the staging buffer is destroyed; the image ends tracked in transfer-destination after transfer writes |
| Images.Image.InitDepthBuffer | src/buffers/image.cpp:189-235 | an owned depth-aspect image in the stored depth-buffer format, usable as depth attachment and sampled, in the initial state |
| Images.Image.InitDepthStencil | src/buffers/image.cpp:236-282 | an owned depth-and-stencil image in the stored depth-stencil format, usable as depth attachment and sampled, in the initial state |
| Images.Upload | src/buffers/image.cpp:68-92 | an exclusive transfer-source buffer on the universal family, mapped, filled with the texture bytes and unmapped |
| Images.DepthFormats.constructor | include/chad_vis/device/image.hpp:53-56 | both stored formats start undefined |
| Images.DepthFormats.SetDepthBufferFormat | include/chad_vis/device/image.hpp:57-73 | the stored format becomes the first attachable one of the four depth formats, or stays as it was when none is |
| Images.DepthFormats.SetDepthStencilFormat | include/chad_vis/device/image.hpp:81-96 | the stored format becomes the first attachable one of the three depth-stencil formats, or stays as it was |
| Images.DepthBufferPick | include/chad_vis/device/image.hpp:57-73 | 32-bit float depth is picked whenever attachable; nothing is picked exactly when none of the four is attachable, and a pick is always attachable |
| Buffers.DefaultCreateInfo | include/chad_vis/device/buffer.hpp:7-14 | a create-info with the member defaults has no alignment, uniform-buffer usage and no host access, and keeps the size and families given |
| Buffers.SharingFor | include/chad_vis/device/buffer.hpp:19 | the buffer is shared concurrently exactly when more than one queue family uses it |
| Buffers.Describe | include/chad_vis/device/buffer.hpp:15-40 | the create request carries the size, usage, families and host access, is concurrent exactly for several families, and names an alignment exactly when one above 0 was given |
| Buffers.WriteFlushesIffRequired | include/chad_vis/device/buffer.hpp:66-72 | a write flushes exactly when the memory needs flushing, then the whole written range right after unmapping, and always copies through the mapping |
| Buffers.StagingOnlyWarns | include/chad_vis/device/buffer.hpp:60-72 | when staging would be needed a read or write only prints a diagnostic first and otherwise maps, copies and unmaps as usual |
| Buffers.Buffer.Init | include/chad_vis/device/buffer.hpp:15-55 | one create call with the described request; staging is needed exactly for host access without host-visible memory, flushing exactly for host access without host-coherent memory |
| Buffers.Buffer.Destroy | include/chad_vis/device/buffer.hpp:56-58 | the buffer and its allocation are destroyed together |
| Buffers.Buffer.Read | include/chad_vis/device/buffer.hpp:60-65 | the optional staging diagnostic, then map, copy out and unmap |
| Buffers.Buffer.Write | include/chad_vis/device/buffer.hpp:66-72 | the optional staging diagnostic, then map, copy in, unmap and the optional flush of the written range |
| Swapchains.ClampExtent | src/chad_vis/core/swapchain.cpp:15-17 | each side of the window size is clamped into the surface's [min, max]: kept when inside, raised to the minimum below it, lowered to the maximum above it |
| Swapchains.SrgbRequired | src/chad_vis/core/swapchain.cpp:48-49 | no separate sRGB pass is needed exactly when the chosen format is one of the two 8-bit sRGB formats |
| Swapchains.FormatPick | src/chad_vis/core/swapchain.cpp:29-47 | the pick is an available format; it is the first available one when none of the preferred pairs is offered, and otherwise the earliest preferred pair that is offered |
| Swapchains.WideFormatNeedsSrgbPass | src/chad_vis/core/swapchain.cpp:29-49 | when one of the four wide formats is offered it wins over the sRGB ones, and the sRGB pass is then required |
| Swapchains.PresentModePick | src/chad_vis/core/swapchain.cpp:58-69 | FIFO is picked whenever offered, else mailbox, else immediate, else the first offered mode; the pick is always offered |
| Swapchains.MinImageCount | src/chad_vis/core/swapchain.cpp:72-75 | one more image than the surface minimum, capped by the maximum, with a reported maximum of 0 meaning no limit; the 32-bit addition wraps to 0 at the top of the range |
| Swapchains.ChooseFormat | src/chad_vis/core/swapchain.cpp:39-47 | the search loop returns the format pick |
| Swapchains.ChoosePresentMode | src/chad_vis/core/swapchain.cpp:63-69 | the search loop returns the present-mode pick |
| Swapchains.Slot | src/chad_vis/core/swapchain.cpp:145 | the frame slot index is always a valid slot |
| Swapchains.NextCounter | src/chad_vis/core/swapchain.cpp:145 | the 32-bit frame counter goes up by one and wraps to 0 after its maximum |
| Swapchains.ConsecutiveSlots | src/chad_vis/core/swapchain.cpp:145 | away from the wrap, consecutive presents use cyclically consecutive slots |
| Swapchains.EverySlotUsed | src/chad_vis/core/swapchain.cpp:145 | any n consecutive presents away from the wrap use each of the n slots |
| Swapchains.WrapRepeatsSlot | src/chad_vis/core/swapchain.cpp:145 | at the counter wrap with three slots the same slot is used for two presents in a row |
| Swapchains.PacingSleep | src/chad_vis/core/swapchain.cpp:234-238 | a sleep happens exactly when the frame came in under the target, and then it is positive and makes the frame last exactly the target |
| Swapchains.CreateSync | src/chad_vis/core/swapchain.cpp:285-293 | a signalled fence and two semaphores are created, in that order |
| Swapchains.InitFrame | src/chad_vis/core/swapchain.cpp:263-294 | a command pool on the universal family, one buffer allocated from it, then the sync objects; the buffer starts empty |
| Swapchains.InitFrames | src/chad_vis/core/swapchain.cpp:116-119 | one fresh frame slot per swapchain image, their creation calls in slot order |
| Swapchains.WrapImages | src/chad_vis/core/swapchain.cpp:105-113 | one distinct, borrowed, view-less colour image per swapchain handle, with the swapchain extent and depth 1 |
| Swapchains.PresentCommandsChain | src/chad_vis/core/swapchain.cpp:181-201 | the swapchain image goes from its tracked state to blit target and then to presentable, the offscreen image to blit source, and the blit names the layouts those barriers leave |
| Swapchains.RecordBlit | src/chad_vis/core/swapchain.cpp:174-221 | the pool is reset, the four present commands are recorded, both images end in their new states, and the submit waits on the source and acquire semaphores and signals the source and present semaphores and the slot fence |
| Swapchains.DestroyFrames | src/chad_vis/core/swapchain.cpp:295-300 | each slot's pool, fence and two semaphores are destroyed, slot after slot |
| Swapchains.Progress | src/chad_vis/core/swapchain.cpp:8-104 | init runs to completion exactly when every driver query and the creation succeed |
| Swapchains.Swapchain.constructor | src/chad_vis_OLD/include/chad_vis/core/swapchain.hpp:7-37 | a swapchain starts with no handle, no images, no frame slots and the frame counter at 0 |
| Swapchains.Swapchain.Init | src/chad_vis/core/swapchain.cpp:6-125 | init stops at the first failed query leaving the later fields untouched; the extent is clamped, the format and sRGB flag follow the pick, the create request names the old swapchain, the old one is destroyed only when it had images, and on success there is one wrapped image and one fresh frame slot per swapchain image and no pending resize |
| Swapchains.Swapchain.Build | src/chad_vis/core/swapchain.cpp:73-120 | the steps from the create call on, with the same outcomes per driver answer |
| Swapchains.Swapchain.Recreate | src/chad_vis/core/swapchain.cpp:90-104 | a failed creation changes nothing; a successful one replaces the handle, destroys the old swapchain only when it had images, and clears the image list |
| Swapchains.Swapchain.Destroy | src/chad_vis/core/swapchain.cpp:126-129 | the swapchain is destroyed only when it has images, then every frame slot |
| Swapchains.Swapchain.Resize | src/chad_vis/core/swapchain.cpp:130-133 | the old frame slots are destroyed first; then init runs with the old swapchain handed over, giving the same clamped extent, format, sRGB flag, new handle, wrapped images, frame slots and create and destroy calls as init, after the destroy calls |
| Swapchains.Swapchain.Present | src/chad_vis/core/swapchain.cpp:143-261 | the slot fence is awaited until it stops timing out and is reset, the image acquired; out-of-date and suboptimal acquires request a resize, only success and suboptimal go on to record, submit, pace and present, any present result other than success requests a resize, and the timestamp moves only when the frame was presented |
| Swapchains.Swapchain.BeginFrame | src/chad_vis/core/swapchain.cpp:145-152 | the slot picked by the counter is used, the counter advances, the fence is awaited until it stops timing out, reset, and the acquire names that slot's semaphore |
| Swapchains.Swapchain.Finish | src/chad_vis/core/swapchain.cpp:153-172 | the acquire result decides between resize requests, abandoning the frame, and drawing it |
| Swapchains.Swapchain.Draw | src/chad_vis/core/swapchain.cpp:174-260 | a drawn frame records the blit and is paced and presented |
| Swapchains.Swapchain.PaceAndPresent | src/chad_vis/core/swapchain.cpp:233-260 | the sleep call is made only when the frame came in early, the timestamp is the clock after pacing, and every present result but success requests a resize |
| HeaderSwapchain.FormatPick | include/chad_vis/core/swapchain.hpp:47-62 | the earliest offered of the four sRGB formats is picked, R8G8B8A8 whenever it is offered, with the sRGB non-linear colour space; when none is offered the format held before is kept |
| HeaderSwapchain.PresentModePick | include/chad_vis/core/swapchain.hpp:64-77 | FIFO unless it is not offered and mailbox is, then mailbox; FIFO as the fallback even when not offered |
| HeaderSwapchain.MinImageCount | include/chad_vis/core/swapchain.hpp:82-87 | three images clamped into the surface's range, where a maximum of 0 means no limit: exactly 3 when the range allows it, else the nearer bound |
| HeaderSwapchain.AwaitImage | include/chad_vis/core/swapchain.hpp:150-165 | the acquire is repeated while it times out and stops at the first other answer, one call per attempt |
| HeaderSwapchain.Swapchain.constructor | include/chad_vis/core/swapchain.hpp:253-263 | a swapchain starts with no handle, no images, no frame slots and the frame counter at 0 |
| HeaderSwapchain.Swapchain.Init | include/chad_vis/core/swapchain.hpp:38-124 | the presentation queue is the universal one, the extent is clamped, the format follows the pick, the create request names the old swapchain, which is destroyed only when it existed and had images; one wrapped image and one fresh frame slot on the graphics family per swapchain image, and no pending resize |
| HeaderSwapchain.Swapchain.Configure | include/chad_vis/core/swapchain.hpp:40-101 | the surface part of init yields the request with the clamped-three image count, the picked format in sRGB non-linear, the extent, the picked mode and the old swapchain |
| HeaderSwapchain.Swapchain.Rebuild | include/chad_vis/core/swapchain.hpp:102-123 | the old swapchain is replaced, the images wrapped and one frame slot created per image |
| HeaderSwapchain.Swapchain.Replace | include/chad_vis/core/swapchain.hpp:102-105 | a new handle replaces the old one, the old one is destroyed when it existed and had images, and the image list is cleared |
| HeaderSwapchain.Swapchain.Destroy | include/chad_vis/core/swapchain.hpp:125-128 | the swapchain is destroyed only when it has images, then every frame slot |
| HeaderSwapchain.Swapchain.Resize | include/chad_vis/core/swapchain.hpp:129-133 | the old frame slots are destroyed first; then init runs again, giving the same presentation queue, clamped extent, format, new handle, wrapped images, frame slots and create and destroy calls as init, after the destroy calls |
| HeaderSwapchain.Swapchain.Present | include/chad_vis/core/swapchain.hpp:143-222 | the slot fence is awaited and reset, the acquire retried while it times out; out-of-date is caught and requests a resize, other raised results escape present, suboptimal requests a resize and still draws; a raised present result other than out-of-date escapes, and suboptimal or out-of-date presents request a resize; a frame that acquires no image records no command and leaves the tracked states and the timestamp unchanged |
| HeaderSwapchain.Swapchain.BeginFrame | include/chad_vis/core/swapchain.hpp:145-165 | the counter's slot is used and the counter advances, the fence is awaited until it stops timing out and reset, and the acquire is retried on that slot's semaphore |
| HeaderSwapchain.Swapchain.Finish | include/chad_vis/core/swapchain.hpp:151-165 | the final acquire result decides between a caught out-of-date, an escaping error, and drawing the frame; without an image the frame's commands, the tracked states and the timestamp stay unchanged |
| HeaderSwapchain.Swapchain.Draw | include/chad_vis/core/swapchain.hpp:167-240 | the blit, presentable transition and submit are recorded, the frame paced and presented; the present result sets the resize request or escapes |
| HeaderSwapchain.Swapchain.WaitTargetFramerate | include/chad_vis/core/swapchain.hpp:241-251 | the sleep call is made only when the frame came in early, and the timestamp becomes the clock after pacing |
| Reflection.Gathered | src/chad_vis/device/pipeline.cpp:45-56 | one attribute per input that is not a built-in, and exactly those inputs' attributes |
| Reflection.VertexAttributes | src/chad_vis/device/pipeline.cpp:26-56 | the attributes gathered over every vertex-stage reflection, on binding 0 with offset not yet set; shaders of other stages contribute none |
| Reflection.InsertByLocation | src/chad_vis/device/pipeline.cpp:58-60 | inserting into a location-sorted run keeps it sorted and adds exactly the one attribute |
| Reflection.SortByLocation | src/chad_vis/device/pipeline.cpp:58-60 | the result is sorted by location and is a permutation of the input |
| Reflection.Placed | src/chad_vis/device/pipeline.cpp:61-65 | offsetting keeps the number of attributes |
| Reflection.PlacedOffsets | src/chad_vis/device/pipeline.cpp:61-65 | each attribute keeps its location, binding and format and is offset by the total size of the attributes before it |
| Reflection.AssignOffsets | src/chad_vis/device/pipeline.cpp:61-65 | the offset loop yields the placed attributes and a stride equal to their total size |
| Reflection.BytesOfPrefix | src/chad_vis/device/pipeline.cpp:61-65 | the size of a prefix plus the next attribute never exceeds the size of a longer prefix |
| Reflection.AttributesPacked | src/chad_vis/device/pipeline.cpp:58-65 | in location order the first attribute is at offset 0, each starts where the previous ends, none overlap and all fit in the stride |
| Reflection.VertexDesc | src/chad_vis/device/pipeline.cpp:21-68 | binding 0 at per-vertex rate with the stride the total size of the sorted attributes, which are a location-sorted permutation of every vertex shader's inputs, packed |
| Reflection.GatherInputs | src/chad_vis/device/pipeline.cpp:47-56 | the inner loop collects exactly the gathered attributes, skipping built-ins |
| Reflection.ExampleGathered | src/chad_vis/device/pipeline.cpp:45-56 | a vertex shader declaring locations 2, 0, 1 and a built-in yields three attributes in declaration order |
| Reflection.ExampleSorted | src/chad_vis/device/pipeline.cpp:58-60 | with distinct locations the sorted order is forced: 0, 1, 2 |
| Reflection.VertexExample | src/chad_vis/device/pipeline.cpp:21-68 | for that shader with 8, 16 and 12 byte formats the offsets are 0, 8 and 24 and the stride is 36 |
| Reflection.CountBindings | src/chad_vis/device/pipeline.cpp:237-239 | the binding count is the number of reflected bindings over all shaders, modulo 2^32 |
| Reflection.NoOccurrences | src/chad_vis/device/pipeline.cpp:237-240 | no bindings in total exactly when every shader declares none |
| Reflection.OccurrencesOf | src/chad_vis/device/pipeline.cpp:69-83 | one occurrence per reflected binding of the shader, tagged with its stage, in order |
| Reflection.MergeMeaning | src/chad_vis/device/pipeline.cpp:84-129 | merging succeeds exactly when every two declarations of a (set, binding) agree on type and count, and the result then has one entry per declared (set, binding), of its type and count, visible to every declaring stage, with the immutable sampler of its key for combined image samplers |
| Reflection.MergeFailureSticks | src/chad_vis/device/pipeline.cpp:115-118 | once an agreement assertion fails, later declarations do not change the outcome |
| Reflection.MergeShader | src/chad_vis/device/pipeline.cpp:92-126 | the inner loop merges one shader's declarations exactly as the reference merge does, stopping at the first failure |
| Reflection.UniqueSets | src/chad_vis/device/pipeline.cpp:84-129 | get_unique_sets yields the reference merge of every shader's declarations in order |
| Reflection.SamplerFor | src/chad_vis/device/pipeline.cpp:143-182 | the default sampler exactly when no caller info names the (set, binding), otherwise the first caller info that does |
| Reflection.FindSamplerInfo | src/chad_vis/device/pipeline.cpp:146-154 | the search loop finds the sampler the reference choice names |
| Reflection.SamplerForFirst | src/chad_vis/device/pipeline.cpp:146-157 | the sampler choice is the only one satisfying its contract |
| Reflection.CombinedKeysMembers | src/chad_vis/device/pipeline.cpp:140-141 | the keys visited are exactly those of the declared combined image samplers |
| Reflection.SamplerCallsEach | src/chad_vis/device/pipeline.cpp:156-182 | one sampler creation per combined image sampler visited, each with its chosen sampler and handle |
| Reflection.FirstStoredMeaning | src/chad_vis/device/pipeline.cpp:160-181 | the sampler map has exactly the visited keys, each with the handle of its first visit, since emplace keeps an existing entry |
| Reflection.SamplerMapCovers | src/chad_vis/device/pipeline.cpp:122-124 | every declared combined image sampler finds a sampler in the map, so the lookup in get_unique_sets never misses |
| Reflection.EmplaceSampler | src/chad_vis/device/pipeline.cpp:143-181 | one sampler is created and emplaced without replacing an existing entry |
| Reflection.SamplersOfShader | src/chad_vis/device/pipeline.cpp:140-183 | one shader's combined image samplers get their samplers created and emplaced in order |
| Reflection.CreateSamplerMap | src/chad_vis/device/pipeline.cpp:130-186 | one sampler per combined image sampler declared, in visiting order, each the caller's or the default, and the map from key to the first sampler created for it |
| Descriptors.BindingsInOrderEach | src/chad_vis/device/pipeline.cpp:193-197 | the copied list holds, position by position, the set's entry for each binding number visited |
| Descriptors.SetBindingsMeaning | src/chad_vis/device/pipeline.cpp:190-197 | a layout's bindings are exactly its set's entries, one per binding number, in strictly ascending binding number |
| Descriptors.PerSetEach | src/chad_vis/device/pipeline.cpp:190-204 | one binding list per set visited, the k-th being the bindings of the k-th set |
| Descriptors.LayoutCallsEach | src/chad_vis/device/pipeline.cpp:200-203 | one layout creation per binding list, in order, each with its returned handle |
| Descriptors.LayoutOfRank | src/chad_vis/device/pipeline.cpp:187-206 | the k-th layout created holds the bindings of the k-th smallest set number in use |
| Descriptors.CopyBindings | src/chad_vis/device/pipeline.cpp:192-197 | the copy loop yields the set's bindings by ascending binding number |
| Descriptors.CreateSetLayouts | src/chad_vis/device/pipeline.cpp:187-206 | one layout per set in use, by ascending set number, each created from that set's bindings |
| Descriptors.LayoutIndexIsSetNumber | include/chad_vis/core/pipeline.hpp:356-358 | when the sets in use are numbered 0 to n - 1, the layout of set k is at position k, which is where binding from index 0 puts it |
| Descriptors.LayoutIndexSkipsUnusedSets | include/chad_vis/core/pipeline.hpp:356-358 | a shader using set 1 alone gets that set's layout at position 0 |
| Descriptors.TallyCounts | src/chad_vis/device/pipeline.cpp:209-217 | the intended tally has an entry exactly for each descriptor type in use, holding the number of descriptors of that type declared |
| Descriptors.TallyAsWrittenCounts | src/chad_vis/device/pipeline.cpp:214-215 | the tally as written has the same entries, but each is too large by the count of that type's first binding |
| Descriptors.TallyOvercount | src/chad_vis/device/pipeline.cpp:214-215 | a single uniform buffer of one descriptor gets a pool size of 2 as written, against the 1 it needs |
| Descriptors.PoolSizesMeaning | src/chad_vis/device/pipeline.cpp:219-221 | the pool sizes list each tallied type once, in ascending type order, with its tally |
| Descriptors.PoolCoversBindings | src/chad_vis/device/pipeline.cpp:207-228 | the intended half of the pool finding: with the corrected tally every pool size equals the number of descriptors of its type declared, every type in use has its size, and no unused type appears |
| Descriptors.PoolAsWritten | src/chad_vis/device/pipeline.cpp:207-228 | the pool as written lists only types in use, and each type's size is the number of its descriptors declared plus the count of its first binding |
| Descriptors.TallyAsWrittenExceeds | src/chad_vis/device/pipeline.cpp:214-215 | the tally as written and the intended tally have the same types, and the one as written is larger by each type's first count |
| Descriptors.TallySet | src/chad_vis/device/pipeline.cpp:212-216 | the inner loop adds one set's bindings, by ascending binding number, to the tally as the code writes it: emplace seeds a new type with the count and += adds it again |
| Descriptors.TallyAll | src/chad_vis/device/pipeline.cpp:210-217 | the tally loops visit every entry set by set and yield the as-written tally of all of them |
| Descriptors.SizesOf | src/chad_vis/device/pipeline.cpp:219-221 | the pool-size list is the tally in ascending type order |
| Descriptors.CreatePool | src/chad_vis/device/pipeline.cpp:207-228 | one pool creation, with room for one set per set in use and the per-type sizes of the tally as written (PoolAsWritten says what they hold) |
| Pipelines.ModuleDeprecation.constructor | include/chad_vis/core/pipeline.hpp:64-67 | the module-deprecation flag starts out true |
| Pipelines.ModuleDeprecation.Set | include/chad_vis/core/pipeline.hpp:68-77 | modules stay deprecated exactly when VK_KHR_maintenance5 is not among the device's extensions |
| Pipelines.StageFor | include/chad_vis/core/pipeline.hpp:196-211 | a stage chains its code inline exactly when modules are not deprecated, carries a module handle only when they are, and has a specialization info exactly when its data is non-empty |
| Pipelines.ImageLayoutFor | include/chad_vis/core/pipeline.hpp:27-38 | a storage image is written in GENERAL, a sampled image or combined image sampler in SHADER_READ_ONLY_OPTIMAL, and every other type has no layout (the assert) |
| Pipelines.DestroyLayoutsEach | include/chad_vis/core/pipeline.hpp:15 | destroy releases each set layout once, in order |
| Pipelines.DestroySamplersEach | include/chad_vis/core/pipeline.hpp:16 | destroy releases each immutable sampler once, in order |
| Pipelines.SamplersReleased | src/chad_vis/device/pipeline.cpp:143-182 | every sampler reflect creates is among those destroy releases |
| Pipelines.LayoutsReleased | src/chad_vis/device/pipeline.cpp:187-206 | every set layout reflect creates is among those destroy releases |
| Pipelines.PartsReleased | include/chad_vis/core/pipeline.hpp:11-21 | samplers, set layouts and the pool of one log are all released by the destroy sequence |
| Pipelines.ReflectReleased | src/chad_vis/device/pipeline.cpp:229-255 | every set layout, sampler and pool a successful reflect creates is released by the following destroy |
| Pipelines.PipelineBase.constructor | include/chad_vis/core/pipeline.hpp:83-89 | a fresh pipeline base holds null handles and empty vectors |
| Pipelines.PipelineBase.Destroy | include/chad_vis/core/pipeline.hpp:11-21 | destroy releases the pipeline, its layout, every set layout, every immutable sampler and the pool, and clears the three vectors |
| Pipelines.PipelineBase.WriteImageDescriptor | include/chad_vis/core/pipeline.hpp:22-47 | an image write succeeds exactly for the three image types, and then updates one descriptor at the image's view in the layout of its type; otherwise nothing is written |
| Pipelines.PipelineBase.WriteBufferDescriptor | include/chad_vis/core/pipeline.hpp:48-63 | a buffer write updates one descriptor at element 0 covering the buffer from the offset with its whole size |
| Pipelines.PipelineBase.Reflect | src/chad_vis/device/pipeline.cpp:229-255 | reflect returns the packed, location-sorted vertex description; with no bindings it creates nothing, otherwise samplers, then (when the declarations agree) set layouts, the pool sized by the tally as written, and sets; new samplers are kept for destroy |
| Pipelines.PipelineBase.DescribeBindings | src/chad_vis/device/pipeline.cpp:242-253 | the descriptor part of reflect stores the handles it created, and on a disagreement keeps the old layouts, pool and sets |
| Pipelines.SetUpDescriptors | src/chad_vis/device/pipeline.cpp:242-253 | one sampler per combined-image-sampler occurrence; then, when the merged sets agree, the set layouts, the pool with the as-written per-type sizes and the sets, or nothing more on a disagreement |
| Pipelines.SetUpSets | src/chad_vis/device/pipeline.cpp:245-253 | one set layout per used set, then the pool with room for one set per layout and the as-written per-type sizes, then one descriptor set per layout allocated from that pool |
| Pipelines.AllocateSets | src/chad_vis/device/pipeline.cpp:249-253 | allocateDescriptorSets returns one non-null set per layout |
| Pipelines.DestroyEachLayout | include/chad_vis/core/pipeline.hpp:15 | releases the set layouts in vector order |
| Pipelines.DestroyEachSampler | include/chad_vis/core/pipeline.hpp:16 | releases the immutable samplers in vector order |
| Pipelines.ComputeModuleLifetime | include/chad_vis/core/pipeline.hpp:114-133 | the compute shader module exists only when modules are deprecated, and then it is both created and destroyed within init |
| Pipelines.BuildCompute | include/chad_vis/core/pipeline.hpp:103-133 | init creates the pipeline layout over the set layouts, the optional module, the compute pipeline with its stage, and destroys the module; the pipeline handle is null exactly when creation reports a failure, which the code only prints |
| Pipelines.Compute.constructor | include/chad_vis/core/pipeline.hpp:83-90 | a fresh compute pipeline holds null handles and empty vectors |
| Pipelines.Compute.Init | include/chad_vis/core/pipeline.hpp:99-134 | init is reflect on the compute shader followed, when reflect succeeds, by the layout, module and pipeline calls; the layout is non-null, the pipeline non-null exactly when its creation succeeded |
| Pipelines.Compute.Finish | include/chad_vis/core/pipeline.hpp:103-133 | the part of init after reflect stores the new layout and pipeline |
| Pipelines.Compute.Execute | include/chad_vis/core/pipeline.hpp:135-139 | execute binds the pipeline, binds all descriptor sets and dispatches the given group counts |
| Pipelines.VertexInputIff | include/chad_vis/core/pipeline.hpp:213-222 | the vertex input state is filled exactly when the vertex shader has a non-built-in input |
| Pipelines.GraphicsModuleLifetime | include/chad_vis/core/pipeline.hpp:191-322 | the vertex and fragment modules exist only when modules are deprecated, and then both are created and destroyed within init |
| Pipelines.BuildGraphics | include/chad_vis/core/pipeline.hpp:173-322 | init creates the pipeline layout, the optional modules, the graphics pipeline over both stages, the vertex input, depth, stencil, blend and attachment formats, and destroys the modules ; the pipeline handle is null exactly when creation reports a failure, which the code only prints |
| Pipelines.MeshDrawIndexedIff | include/chad_vis/core/pipeline.hpp:428-438 | a mesh is drawn once after binding its vertex buffer, indexed exactly when it has indices, and otherwise over its vertex count |
| Pipelines.PassShape | include/chad_vis/core/pipeline.hpp:353-360 | a pass begins and ends rendering once, binds the pipeline before any draw, and binds descriptor sets exactly when there are any |
| Pipelines.RecordPass | include/chad_vis/core/pipeline.hpp:353-360 | records the pass's commands in order |
| Pipelines.Graphics.constructor | include/chad_vis/core/pipeline.hpp:483-486 | a fresh graphics pipeline holds null handles and empty vectors |
| Pipelines.Graphics.Init | include/chad_vis/core/pipeline.hpp:169-323 | init is reflect on both shaders followed, when it succeeds, by the pipeline calls, with a pipeline handle that is null exactly when creation failed; the render area is the extent, depth is enabled when depth test or write is, stencil when stencil test is |
| Pipelines.Graphics.Finish | include/chad_vis/core/pipeline.hpp:173-322 | the part of init after reflect stores the layout, the pipeline and the persistent options |
| Pipelines.Graphics.ExecuteWithDepth | include/chad_vis/core/pipeline.hpp:326-361 | a fullscreen triangle through the color attachment and the depth-stencil image, attached as depth and stencil only where enabled |
| Pipelines.Graphics.Execute | include/chad_vis/core/pipeline.hpp:364-390 | a fullscreen triangle through the color attachment only |
| Pipelines.Graphics.ExecuteMeshWithDepth | include/chad_vis/core/pipeline.hpp:393-440 | the mesh's draw inside a depth pass |
| Pipelines.Graphics.ExecuteMesh | include/chad_vis/core/pipeline.hpp:443-481 | the mesh's draw inside a color-only pass |
| Input.Data.constructor | include/chad_vis/core/input.hpp:15-25 | the process-wide record starts with no keys or buttons, zero position and delta, and the mouse not captured |
| Input.Data.Flush | include/chad_vis/core/input.hpp:66-72 | flush empties this frame's pressed and released keys and buttons and zeroes the delta, keeping the rest |
| Input.Data.HandleEvent | include/chad_vis/core/input.hpp:74-114 | the record after one event is what the handler's case for that event makes of it, with captured keyboard or mouse events ignored |
| Input.Data.RegisterCapture | include/chad_vis/core/input.hpp:116-118 | only the capture flag changes |
| Input.KeyIsPressed | include/chad_vis/core/input.hpp:29 | true exactly when the scancode is in this frame's pressed set, that is (PressedIffUnflushedPress) when an uncaptured press of it came since the last flush or focus loss |
| Input.KeyIsHeld | include/chad_vis/core/input.hpp:36 | true exactly when the scancode is in the held set, that is (HeldIffLastPress) when its last press was not followed by a release or a focus loss |
| Input.KeyIsReleased | include/chad_vis/core/input.hpp:43 | true exactly when the scancode is in this frame's released set |
| Input.ButtonIsPressed | include/chad_vis/core/input.hpp:51 | true exactly when the button is in this frame's pressed set |
| Input.ButtonIsHeld | include/chad_vis/core/input.hpp:53 | true exactly when the button is in the held set |
| Input.ButtonIsReleased | include/chad_vis/core/input.hpp:55 | true exactly when the button is in this frame's released set |
| Input.KeyIsPressedLogical | include/chad_vis/core/input.hpp:31 | a logical key counts as pressed exactly when the scancode the layout maps it to is in the pressed set |
| Input.KeyIsHeldLogical | include/chad_vis/core/input.hpp:38 | a logical key is held exactly when the scancode the layout maps it to is in the held set |
| Input.KeyIsReleasedLogical | include/chad_vis/core/input.hpp:45 | a logical key counts as released exactly when the scancode the layout maps it to is in the released set |
| Input.KeyIsPressedChar | include/chad_vis/core/input.hpp:33 | as written: asks the pressed query about the key numbered by the lower-cased character code, which for a letter lies past Z (CharKeyAsWrittenMissesLetters) |
| Input.KeyIsHeldChar | include/chad_vis/core/input.hpp:40 | as written: asks the held query about the key numbered by the lower-cased character code |
| Input.KeyIsReleasedChar | include/chad_vis/core/input.hpp:47 | as written: asks the released query about the key numbered by the lower-cased character code |
| Input.KeyIsPressedCharIntended | include/chad_vis/core/input.hpp:33 | the corrected character query: a letter in either case asks the pressed query about its own letter key |
| Input.KeyIsHeldCharIntended | include/chad_vis/core/input.hpp:40 | the corrected character query: a letter in either case asks the held query about its own letter key |
| Input.KeyIsReleasedCharIntended | include/chad_vis/core/input.hpp:47 | the corrected character query: a letter in either case asks the released query about its own letter key |
| Input.CharKeyAsWrittenMissesLetters | include/chad_vis/core/input.hpp:33-47 | as written, the character queries cast the lower-cased character code to a key, and no letter lands on a letter key ('w' becomes 119) |
| Input.CharKey | include/chad_vis/core/input.hpp:31-47 | a letter in either case names its own letter key, a digit its Num key, anything else Unknown |
| Input.CharKeyLettersDistinct | include/chad_vis/core/input.hpp:31-47 | distinct letters, ignoring case, name distinct keys |
| Input.CharQueriesIgnoreCase | include/chad_vis/core/input.hpp:33-47 | the corrected character queries give the same answer for a character and its lower-case form |
| Input.FlushKeepsHeld | include/chad_vis/core/input.hpp:66-72 | flush keeps the held keys and buttons, the position and the capture flag, clears the frame events and the delta, and is idempotent |
| Input.FocusLostForgetsAll | include/chad_vis/core/input.hpp:75-80 | losing focus empties every key and button set and the delta but keeps the position, whatever the UI captures |
| Input.PressAndRelease | include/chad_vis/core/input.hpp:81-100 | an uncaptured press adds the key or button to pressed and held, an uncaptured release adds it to released and removes it from held, and nothing else changes |
| Input.CapturedIgnored | include/chad_vis/core/input.hpp:81-112 | keyboard events the UI captures, and mouse events it captures, leave the record unchanged |
| Input.HeldIffLastPress | include/chad_vis/core/input.hpp:74-114 | after a run of events a key is held exactly when an uncaptured press of it is followed by no release of it and no focus loss, or it was held before and nothing ended the hold |
| Input.PressedIffUnflushedPress | include/chad_vis/core/input.hpp:74-114 | after a run of events a key counts as pressed exactly when some uncaptured press of it is followed by no focus loss, or it was pressed before and focus was never lost |
| Input.PositionFollowsRawMotion | include/chad_vis/core/input.hpp:108-112 | the position moves by exactly the sum of the uncaptured raw mouse motion |
| Input.DeltaFollowsRawMotion | include/chad_vis/core/input.hpp:108-112 | without a focus loss, the delta grows by exactly the sum of the uncaptured raw mouse motion |
| LegacyInput.Data.constructor | src/chad_vis_OLD/include/chad_vis/core/input.hpp:7-17 | the record starts with no keys or buttons, zero position and delta, and the mouse not captured |
| LegacyInput.Data.SetMode | src/chad_vis_OLD/include/chad_vis/core/input.hpp:34-37 | only the capture flag changes |
| LegacyInput.Data.Flush | src/chad_vis_OLD/include/chad_vis/core/input.hpp:54-60 | flush empties this frame's pressed and released sets and zeroes the delta |
| LegacyInput.Data.Clear | src/chad_vis_OLD/include/chad_vis/core/input.hpp:62-66 | clear is a flush that also empties the held keys and buttons |
| LegacyInput.Data.KeyCallback | src/chad_vis_OLD/include/chad_vis/core/input.hpp:70-82 | a press adds the key to pressed and held, a release adds it to released and removes it from held, any other action does nothing |
| LegacyInput.Data.MouseButtonCallback | src/chad_vis_OLD/include/chad_vis/core/input.hpp:86-97 | the same for mouse buttons |
| LegacyInput.Data.MousePositionCallback | src/chad_vis_OLD/include/chad_vis/core/input.hpp:101-106 | the delta grows by the distance from the old position to the reported one, which becomes the position |
| LegacyInput.KeyIsPressed | src/chad_vis_OLD/include/chad_vis/core/input.hpp:21 | true exactly when the GLFW key code is in this frame's pressed set |
| LegacyInput.KeyIsHeld | src/chad_vis_OLD/include/chad_vis/core/input.hpp:25 | true exactly when the key code is in the held set |
| LegacyInput.KeyIsReleased | src/chad_vis_OLD/include/chad_vis/core/input.hpp:29 | true exactly when the key code is in this frame's released set |
| LegacyInput.ButtonIsPressed | src/chad_vis_OLD/include/chad_vis/core/input.hpp:39 | true exactly when the button code is in this frame's pressed set |
| LegacyInput.ButtonIsHeld | src/chad_vis_OLD/include/chad_vis/core/input.hpp:41 | true exactly when the button code is in the held set |
| LegacyInput.ButtonIsReleased | src/chad_vis_OLD/include/chad_vis/core/input.hpp:43 | true exactly when the button code is in this frame's released set |
| LegacyInput.KeyIsPressedChar | src/chad_vis_OLD/include/chad_vis/core/input.hpp:22 | a lower-case letter asks about the code 32 below its own, every other character about its own code, as toupper gives |
| LegacyInput.KeyIsHeldChar | src/chad_vis_OLD/include/chad_vis/core/input.hpp:26 | the same upper-casing for the held query |
| LegacyInput.KeyIsReleasedChar | src/chad_vis_OLD/include/chad_vis/core/input.hpp:30 | the same upper-casing for the released query |
| LegacyInput.CharQueriesNameLetterKeys | src/chad_vis_OLD/include/chad_vis/core/input.hpp:22-30 | a letter in either case asks about its own GLFW letter key |
| LegacyInput.OtherActionsIgnored | src/chad_vis_OLD/include/chad_vis/core/input.hpp:70-97 | an action other than press or release (a repeat) changes nothing |
| LegacyInput.KeyPressAndRelease | src/chad_vis_OLD/include/chad_vis/core/input.hpp:70-97 | a press makes the code pressed and held, a release makes it released and not held, and no other code or field changes |
| LegacyInput.FlushAndClear | src/chad_vis_OLD/include/chad_vis/core/input.hpp:54-66 | flush keeps what is held and the position; clear leaves only the position and the capture flag; both are idempotent together |
| LegacyInput.DeltaTelescopes | src/chad_vis_OLD/include/chad_vis/core/input.hpp:101-106 | after a run of position reports the position is the last report and the delta has grown by the distance from the start to it |
| LegacyInput.DeltaSinceFlush | src/chad_vis_OLD/include/chad_vis/core/input.hpp:54-106 | after a flush the delta is the distance moved since the flush |

## Left out

- Vulkan, VMA, SPIRV-Reflect, SFML and GLFW themselves: each call is a log entry or a parameter. Memory copies into mapped buffers, image contents and GPU execution are not modelled.
- Fences, semaphores, queue submission order and `waitIdle` only appear as log entries. GPU-side synchronisation is concurrency with the device and is not modelled.
- Every wait loop that spins while a fence (or, in the header swapchain, an acquire) reports a timeout is modelled on a finite list of replies, with a `requires` that some reply is not a timeout. A wait that never ends is not modelled.
- `std::println` diagnostics and `exit(0)` are not modelled, except the staging diagnostic of `Buffer::read` and `Buffer::write`, which is logged as `Diagnostic(STAGING_MESSAGE)`. When no candidate device exists, the "exit" becomes a `None` result.
- `set_target_framerate` converts a double to nanoseconds and is not modelled, because it is floating point. The target frame time is a parameter on integer nanoseconds.
- The clock and `sleep_for` are parameters and a log entry. 64-bit overflow of `std::chrono` durations is not modelled.
- SyncFrame creation cannot fail in the model. Vulkan-Hpp exceptions are modelled only where the source branches on a result.
- Swapchains.Swapchain.Present and HeaderSwapchain.Swapchain.Present: the source image must not be one of the swapchain's own images (`src !in images`). The code never passes one, and the model does not cover that aliasing.
- Buffer read and write: the bytes copied are not modelled, only the flush decision and the diagnostic.
- Viewport, rasterisation, multisampling, blend constants, sampler LOD and the allocation priority are float or fixed state that the modelled decisions do not read. Stencil op states and dynamic states are left out for the same reason.
- Loading SPIR-V files (`spvrc::load`) and shader reflection itself are foreign. The reflection data is a parameter.
- Pipelines.Graphics.ExecuteMesh: the color-only mesh template draws `_vertices._vertex_n` vertices where the depth variant draws `_vertices._count`. Neither name exists in the vertices header, so neither template compiles once instantiated. Both are modelled as drawing the mesh's vertex count.
- The index type of a mesh's index buffer is not modelled.
- Reflection.FindSamplerInfo: requires fewer than 2^32 sampler overrides, so that the 32-bit loop index cannot wrap.
- Counters are unbounded except where the source's wrap-around matters: the 32-bit binding count in reflect, the 32-bit frame counter of the swapchains and the 64-bit device score.
- The binding map of `get_unique_sets` (a map of maps) is one map keyed by (set, binding). Iteration in ascending key order is kept.
- C++ inheritance is modelled by composition: Compute and Graphics each hold a PipelineBase. DepthBuffer and DepthStencil are modelled as an Image with their own `init` methods (`Images.Image.InitDepthBuffer`, `Images.Image.InitDepthStencil`).
- `Device::init` (`src/chad_vis/core/device.cpp:270-275`) takes the first candidate family of each role with `front()`, which is undefined on an empty candidate list. The model states this as two `requires` on `VisDevice.Device.Init` and `CoreDevice.Device.Init`, matching the places where the code reaches `get_queue_families`. With a surface, every device must have a family for each of the four roles, because `check_presentation` (lines 118-123) calls it on each device. Without a surface, only a device that passes the other checks and has the largest local memory among them needs one, because only the chosen device reaches it.
- VisDevice.Device.GetQueues and CoreDevice.Device.GetQueues: each queue fetch gets a fresh handle. Vulkan returns the same queue for the same family and index, so roles that share a family share one queue; the model does not capture that aliasing.
- The preferred device type of `include/chad_vis/core/device.hpp` is kept in the create-info but, as in `src/chad_vis/core/device.cpp`, gives no score bonus.
- `extension_set` in `src/core/device.cpp` is a `std::set<const char*>`, ordered by pointer. It is modelled on the names, with the order left open.
- VMA allocation flags and the Vulkan-Hpp dispatcher are not modelled.
- The renderer, SMAA, camera, scene and window code is not part of this model. So are the queue wrapper, `pipeline_graphics.cpp` and `pipeline_compute.cpp`. They only sequence the modelled operations or fill creation structs.
- Input: the non-raw `MouseMoved` branch is compiled only under `INPUT_DISABLE_RAW_MOUSE` and is not modelled. In the default build such an event changes nothing.
- Input: an empty `std::optional` event is not modelled, since the handler dereferences it unchecked.
- Input: the 32-bit wrap-around of mouse positions and deltas is not modelled. Positions are unbounded integers.
- Input: the UI capture flags (ImGui's WantCaptureKeyboard and WantCaptureMouse, or 0 without ImGui) are parameters.
- Input: `delocalize` is an SFML call and is a parameter.
- LegacyInput: the truncation of GLFW's double cursor position to `int32_t` is not modelled. The callback receives the truncated position.
- LegacyInput: the `glfwSetInputMode` call of `set_mode` is not modelled.

## Findings

| source | as written | input that shows it | evidently intended | confidence | as-written member | corrected member |
|---|---|---|---|---|---|---|
| src/chad_vis/device/pipeline.cpp:214-215 | `emplace` seeds a type's pool size with the first binding's count, then `+=` adds that same count again | one uniform buffer binding of count 1 gives a pool size of 2 | the pool size of a type is the sum of its bindings' counts | high, not executed | Descriptors.TallyAsWritten (Descriptors.TallyAsWrittenCounts, Descriptors.TallyOvercount, Descriptors.PoolAsWritten), used by Descriptors.CreatePool | Descriptors.Tally (Descriptors.TallyCounts, Descriptors.PoolCoversBindings, Descriptors.TallyAsWrittenExceeds) |
| include/chad_vis/core/input.hpp:33-47 | a character query casts `std::tolower(c)` to `sf::Keyboard::Key` | 'w' becomes key 119, past `Key::Z` (25), so `Keys::held('w')` never sees the W key | a letter names its own letter key, regardless of case | high, not executed | Input.CharKeyAsWritten (Input.CharKeyAsWrittenMissesLetters), used by Input.KeyIsPressedChar, Input.KeyIsHeldChar and Input.KeyIsReleasedChar | Input.CharKey (Input.CharKeyLettersDistinct, Input.CharQueriesIgnoreCase), used by Input.KeyIsPressedCharIntended, Input.KeyIsHeldCharIntended and Input.KeyIsReleasedCharIntended |
